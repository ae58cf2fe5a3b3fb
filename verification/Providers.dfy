/**
 The two plugin managers AGX drives, the initialization receipt it persists, and the commands
 that change either one.  A command may fail before or after it took effect; a reported success
 took effect; an inventory that can be read is truthful.
 */
module Providers {
  import opened Wrappers

  datatype Name = Codex | Claude

  datatype Plugin = Plugin(version: string, enabled: bool)

  /** What an inventory shows of one manager: the source its `agent-plugins` Marketplace is bound
      to, if it is registered, and the plugins installed from it. */
  datatype ProviderState = ProviderState(marketplace: Option<string>, plugins: map<string, Plugin>)

  datatype Inventories = Inventories(codex: ProviderState, claude: ProviderState) {
    function At(name: Name): ProviderState {
      match name
      case Codex => codex
      case Claude => claude
    }

    function Put(name: Name, s: ProviderState): Inventories {
      match name
      case Codex => this.(codex := s)
      case Claude => this.(claude := s)
    }
  }

  datatype Profile = Core | GitHub | Team | Full

  /** The plugins a profile selects. */
  function Plugins(profile: Profile): (plugins: seq<string>)
    ensures Distinct(plugins)
  {
    var core := ["grilling", "self-improvement", "knowledge-maintenance", "adaptive-problem-solving"];
    var plugins :=
      match profile
      case Core => core
      case GitHub => core + ["github-collaboration"]
      case Team => core + ["github-collaboration", "orchestrated-collaboration"]
      case Full => core + ["github-collaboration", "orchestrated-collaboration", "resource-observability"];
    assert forall i, j :: 0 <= i < j < |plugins| ==> |plugins[i]| != |plugins[j]|;
    plugins
  }

  predicate Distinct<T(==)>(s: seq<T>) {
    forall i, j :: 0 <= i < j < |s| ==> s[i] != s[j]
  }

  datatype Phase = PhaseInitialized | PhaseProvisioning | PhaseNeedsResume | PhaseManualCleanup

  datatype ProviderReceipt = ProviderReceipt(
    name: Name, marketplaceAdded: bool, selectedPlugins: seq<string>, addedPlugins: seq<string>)

  /**
   The persisted initialization receipt.  `parameters` stands for the GitHub owner, the repository
   names, the visibility and the template identity; `boundProviders` is the provider list in the
   evidence binding of a v4 receipt and is absent from the older schemas.
   */
  datatype Receipt = Receipt(
    installationId: string, deployment: bool, parameters: string, profile: Profile,
    boundProviders: Option<seq<Name>>, projectRecorded: bool, phase: Phase,
    providers: seq<ProviderReceipt>)

  function Names(receipts: seq<ProviderReceipt>): (names: seq<Name>)
    ensures |names| == |receipts|
    ensures forall i :: 0 <= i < |receipts| ==> names[i] == receipts[i].name
  {
    seq(|receipts|, i requires 0 <= i < |receipts| => receipts[i].name)
  }

  /** The provider lists that normalization yields. */
  predicate Normalized(names: seq<Name>) {
    names == [Codex] || names == [Claude] || names == [Codex, Claude]
  }

  predicate ValidProviderReceipt(item: ProviderReceipt, profile: Profile) {
    && item.selectedPlugins == Plugins(profile)
    && Distinct(item.addedPlugins)
    && forall p :: p in item.addedPlugins ==> p in item.selectedPlugins
  }

  /** The checks of a receipt that concern providers.  They run before every write and after every
      read. */
  predicate ValidReceipt(receipt: Receipt) {
    var names := Names(receipt.providers);
    && receipt.installationId != ""
    && (receipt.boundProviders.Some? && names != [] ==> names == receipt.boundProviders.value)
    && (forall item :: item in receipt.providers ==> ValidProviderReceipt(item, receipt.profile))
    && if names == [] then receipt.deployment && (receipt.phase.PhaseProvisioning? || receipt.phase.PhaseNeedsResume?)
       else Normalized(names)
  }

  /** Path identity of two Marketplace sources; paths are taken as already canonical. */
  predicate SameSource(actual: string, expected: string) {
    actual != "" && expected != "" && actual == expected
  }

  predicate ForeignMarketplace(s: ProviderState, source: string) {
    s.marketplace.Some? && !SameSource(s.marketplace.value, source)
  }

  /** `Stopped` is the end of the AGX process: its caller may do nothing more. */
  datatype Outcome = Done | Failed | Stopped

  function WithMarketplace(m: Inventories, name: Name, source: string): Inventories {
    m.Put(name, m.At(name).(marketplace := Some(source)))
  }

  function WithoutMarketplace(m: Inventories, name: Name): Inventories {
    m.Put(name, m.At(name).(marketplace := None))
  }

  function WithPlugin(m: Inventories, name: Name, plugin: string, version: string): Inventories {
    m.Put(name, m.At(name).(plugins := m.At(name).plugins[plugin := Plugin(version, true)]))
  }

  function WithoutPlugin(m: Inventories, name: Name, plugin: string): Inventories {
    m.Put(name, m.At(name).(plugins := m.At(name).plugins - {plugin}))
  }

  /** The managers and the receipt file, as one AGX process sees them.  On a `reliable` host every
      command succeeds and no process stops. */
  class Host {
    const reliable: bool
    var inventories: Inventories
    var persisted: Option<Receipt>

    constructor (inventories: Inventories, persisted: Option<Receipt>, reliable: bool)
      ensures this.inventories == inventories && this.persisted == persisted && this.reliable == reliable
    {
      this.inventories, this.persisted, this.reliable := inventories, persisted, reliable;
    }

    method Inspect(name: Name) returns (inventory: Option<ProviderState>)
      ensures inventory.Some? ==> inventory.value == inventories.At(name)
      ensures reliable ==> inventory.Some?
    {
      var readable: bool := *;
      inventory := if readable || reliable then Some(inventories.At(name)) else None;
    }

    /** Decides how a command ends, and whether it took effect. */
    method Attempt(mayStop: bool) returns (outcome: Outcome, effect: bool)
      ensures outcome.Done? ==> effect
      ensures outcome.Stopped? ==> mayStop
      ensures reliable ==> outcome.Done?
    {
      outcome := *;
      effect := *;
      if reliable {
        outcome := Done;
      }
      if outcome.Stopped? && !mayStop {
        outcome := Failed;
      }
      effect := effect || outcome.Done?;
    }

    method AddMarketplace(name: Name, source: string) returns (outcome: Outcome)
      modifies this`inventories
      ensures inventories == old(inventories) || inventories == WithMarketplace(old(inventories), name, source)
      ensures outcome.Done? ==> inventories == WithMarketplace(old(inventories), name, source)
      ensures reliable ==> outcome.Done?
    {
      var effect: bool;
      outcome, effect := Attempt(true);
      if effect {
        inventories := WithMarketplace(inventories, name, source);
      }
    }

    method RemoveMarketplace(name: Name, mayStop: bool) returns (outcome: Outcome)
      modifies this`inventories
      ensures inventories == old(inventories) || inventories == WithoutMarketplace(old(inventories), name)
      ensures outcome.Done? ==> inventories == WithoutMarketplace(old(inventories), name)
      ensures outcome.Stopped? ==> mayStop
      ensures reliable ==> outcome.Done?
    {
      var effect: bool;
      outcome, effect := Attempt(mayStop);
      if effect {
        inventories := WithoutMarketplace(inventories, name);
      }
    }

    method InstallPlugin(name: Name, plugin: string) returns (outcome: Outcome, version: string)
      modifies this`inventories
      ensures inventories == old(inventories) || inventories == WithPlugin(old(inventories), name, plugin, version)
      ensures outcome.Done? ==> inventories == WithPlugin(old(inventories), name, plugin, version)
      ensures reliable ==> outcome.Done?
    {
      var effect: bool;
      outcome, effect := Attempt(true);
      version := *;
      if effect {
        inventories := WithPlugin(inventories, name, plugin, version);
      }
    }

    method RemovePlugin(name: Name, plugin: string, mayStop: bool) returns (outcome: Outcome)
      modifies this`inventories
      ensures inventories == old(inventories) || inventories == WithoutPlugin(old(inventories), name, plugin)
      ensures outcome.Done? ==> inventories == WithoutPlugin(old(inventories), name, plugin)
      ensures outcome.Stopped? ==> mayStop
      ensures reliable ==> outcome.Done?
    {
      var effect: bool;
      outcome, effect := Attempt(mayStop);
      if effect {
        inventories := WithoutPlugin(inventories, name, plugin);
      }
    }

    /** Replaces the receipt file.  The rename is its only effect, so a reported failure changed
        nothing; the process may stop on either side of it. */
    method WriteReceipt(receipt: Receipt) returns (outcome: Outcome)
      modifies this`persisted
      ensures persisted == old(persisted) || (persisted == Some(receipt) && ValidReceipt(receipt))
      ensures outcome.Done? ==> persisted == Some(receipt)
      ensures outcome.Failed? ==> persisted == old(persisted)
      ensures reliable && ValidReceipt(receipt) ==> outcome.Done?
    {
      if !ValidReceipt(receipt) {
        return Failed;
      }
      var effect: bool;
      outcome, effect := Attempt(true);
      if effect && !outcome.Failed? {
        persisted := Some(receipt);
      }
    }

    /** The write that ends compensation: validation still applies to it, and nothing else stops it. */
    method WriteRecoveryReceipt(receipt: Receipt) returns (written: bool)
      modifies this`persisted
      ensures written == ValidReceipt(receipt)
      ensures persisted == if written then Some(receipt) else old(persisted)
    {
      written := ValidReceipt(receipt);
      if written {
        persisted := Some(receipt);
      }
    }

    /** Either the valid receipt that is there, or no receipt, or an error. */
    method ReadReceipt() returns (receipt: Result<Option<Receipt>, ()>)
      ensures receipt.Ok? ==> receipt.value == persisted
      ensures receipt.Ok? && persisted.Some? ==> ValidReceipt(persisted.value)
      ensures reliable && (persisted.Some? ==> ValidReceipt(persisted.value)) ==> receipt.Ok?
    {
      var readable: bool := *;
      if (!readable && !reliable) || (persisted.Some? && !ValidReceipt(persisted.value)) {
        return Err(());
      }
      receipt := Ok(persisted);
    }

    method RemoveReceipt() returns (outcome: Outcome)
      modifies this`persisted
      ensures persisted == old(persisted) || persisted == None
      ensures outcome.Done? ==> persisted == None
      ensures outcome.Failed? ==> persisted == old(persisted)
      ensures reliable ==> outcome.Done?
    {
      var effect: bool;
      outcome, effect := Attempt(true);
      if effect && !outcome.Failed? {
        persisted := None;
      }
    }
  }
}
