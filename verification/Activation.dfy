/**
 Initialization, compensation and uninitialization of the provider half of a deployment.

 The promise is that AGX reverses only what it added, however its runs failed, stopped and were
 resumed.  A stop inside compensation is outside the promise: compensation and the receipt write
 that ends it are one step here.
 */
module Activation {
  import opened Wrappers
  import opened Providers
  import opened Ownership
  import opened ProviderTargets

  /** `evidence` says whether the caller selected an evidence profile. */
  datatype Options = Options(
    installationId: string, parameters: string, profile: Profile, evidence: bool,
    providers: seq<Name>, source: string)

  datatype InitResult =
    | Rejected                        // nothing was written
    | NotWritten                      // a receipt could not be written
    | RemoteFailed                    // repositories, Project or inventory; to be resumed
    | RolledBack                      // activation failed and everything AGX added is gone
    | CleanupIncomplete(attempted: nat) // activation failed at the last of these providers, and so did compensation
    | AlreadyInitialized(receipt: Receipt)
    | Initialized(receipt: Receipt)
    | InitStopped

  datatype UninitResult =
    | NothingToDo
    | Refused
    | Retained(marketplaces: seq<Name>)  // pre-existing Marketplaces still reference the Installation
    | Removed
    | UninitStopped

  // ---------------------------------------------------------------- compensation

  /** Undoes one receipt.  `clean` is what the final readback says. */
  method CompensateProvider(host: Host, item: ProviderReceipt, source: string) returns (clean: bool)
    modifies host`inventories
    ensures forall n: Name :: n != item.name ==> host.inventories.At(n) == old(host.inventories).At(n)
    ensures Shrunk(old(host.inventories).At(item.name), host.inventories.At(item.name), item)
    ensures clean ==> host.inventories.At(item.name) == Stripped(old(host.inventories).At(item.name), item)
    ensures clean ==> !ForeignMarketplace(old(host.inventories).At(item.name), source)
    ensures host.reliable && !ForeignMarketplace(old(host.inventories).At(item.name), source) ==> clean
  {
    ghost var before := host.inventories.At(item.name);
    clean := true;
    var inventory := host.Inspect(item.name);
    if inventory.None? || ForeignMarketplace(inventory.value, source) {
      return false;
    }
    var index := |item.addedPlugins|;
    while index > 0
      invariant 0 <= index <= |item.addedPlugins|
      invariant forall n: Name :: n != item.name ==> host.inventories.At(n) == old(host.inventories).At(n)
      invariant Shrunk(before, host.inventories.At(item.name), item)
      invariant host.reliable ==> clean && NonePresent(item.addedPlugins, index, host.inventories.At(item.name))
    {
      index := index - 1;
      if item.addedPlugins[index] in inventory.value.plugins {
        var outcome := host.RemovePlugin(item.name, item.addedPlugins[index], false);
        if outcome.Failed? {
          clean := false;
        }
      }
    }
    inventory := host.Inspect(item.name);
    if inventory.None? {
      return false;
    }
    if item.marketplaceAdded && inventory.value.marketplace.Some? {
      var outcome := host.RemoveMarketplace(item.name, false);
      if outcome.Failed? {
        clean := false;
      }
    }
    inventory := host.Inspect(item.name);
    if inventory.None? {
      return false;
    }
    if item.marketplaceAdded && inventory.value.marketplace.Some? {
      clean := false;
    }
    for k := 0 to |item.addedPlugins|
      invariant clean ==> forall j :: 0 <= j < k ==> item.addedPlugins[j] !in inventory.value.plugins
      invariant clean ==> !(item.marketplaceAdded && inventory.value.marketplace.Some?)
      invariant host.reliable ==> clean && NonePresent(item.addedPlugins, 0, inventory.value)
    {
      if item.addedPlugins[k] in inventory.value.plugins {
        clean := false;
      }
    }
    if clean {
      assert host.inventories.At(item.name).plugins == Stripped(before, item).plugins;
    }
  }

  /** None of `plugins[index..]` is installed. */
  ghost predicate NonePresent(plugins: seq<string>, index: nat, s: ProviderState) {
    forall j :: index <= j < |plugins| ==> plugins[j] !in s.plugins
  }

  ghost predicate NoneForeign(inventories: Inventories, receipts: seq<ProviderReceipt>, source: string) {
    forall i :: 0 <= i < |receipts| ==> !ForeignMarketplace(inventories.At(receipts[i].name), source)
  }

  /** What undoing leaves of one receipt: no more than was there, and where nothing fails just what was not
      claimed, unless the Marketplace is foreign. */
  ghost predicate Undone(before: ProviderState, after: ProviderState, item: ProviderReceipt, source: string,
                         reliable: bool)
  {
    && Shrunk(before, after, item)
    && (reliable && !ForeignMarketplace(before, source) ==> after == Stripped(before, item))
  }

  /** Undoes the receipts, last first, and goes on past a failure: each is undone as if it were the only one. */
  method Compensate(host: Host, receipts: seq<ProviderReceipt>, source: string) returns (clean: bool)
    requires Distinct(Names(receipts))
    modifies host`inventories
    ensures forall n: Name :: n !in Names(receipts) ==> host.inventories.At(n) == old(host.inventories).At(n)
    ensures forall i :: 0 <= i < |receipts| ==>
      Undone(old(host.inventories).At(receipts[i].name), host.inventories.At(receipts[i].name), receipts[i], source,
             host.reliable)
    ensures clean ==> forall i :: 0 <= i < |receipts| ==>
      host.inventories.At(receipts[i].name) == Stripped(old(host.inventories).At(receipts[i].name), receipts[i])
    ensures clean ==> NoneForeign(old(host.inventories), receipts, source)
    ensures host.reliable && NoneForeign(old(host.inventories), receipts, source) ==> clean
  {
    hide Shrunk, Stripped, ForeignMarketplace;
    clean := true;
    var index := |receipts|;
    while index > 0
      invariant 0 <= index <= |receipts|
      invariant forall n: Name :: n !in Names(receipts) ==> host.inventories.At(n) == old(host.inventories).At(n)
      invariant forall i :: 0 <= i < index ==>
        host.inventories.At(receipts[i].name) == old(host.inventories).At(receipts[i].name)
      invariant forall i :: index <= i < |receipts| ==>
        Undone(old(host.inventories).At(receipts[i].name), host.inventories.At(receipts[i].name), receipts[i], source,
               host.reliable)
      invariant clean ==> forall i :: index <= i < |receipts| ==>
        host.inventories.At(receipts[i].name) == Stripped(old(host.inventories).At(receipts[i].name), receipts[i])
      invariant clean ==> forall i :: index <= i < |receipts| ==>
        !ForeignMarketplace(old(host.inventories).At(receipts[i].name), source)
      invariant host.reliable && NoneForeign(old(host.inventories), receipts, source) ==> clean
    {
      index := index - 1;
      ghost var names := Names(receipts);
      assert forall i :: 0 <= i < |receipts| && i != index ==> names[i] != names[index] && receipts[i].name == names[i];
      assert receipts[index].name == names[index];
      var cleaned := CompensateProvider(host, receipts[index], source);
      clean := clean && cleaned;
    }
  }

  // ---------------------------------------------------------------- activation

  function Receipts(targets: seq<Target>): (receipts: seq<ProviderReceipt>)
    ensures |receipts| == |targets|
    ensures forall i :: 0 <= i < |targets| ==> receipts[i] == targets[i].receipt
  {
    seq(|targets|, i requires 0 <= i < |targets| => targets[i].receipt)
  }

  /** The receipts a failed activation may have acted under: everything up to the provider that
      failed, with the plugin that was being installed. */
  method CandidateReceipts(targets: seq<Target>, failedIndex: nat, attempted: Option<string>)
    returns (receipts: seq<ProviderReceipt>)
    requires failedIndex < |targets|
    ensures |receipts| == failedIndex + 1
    ensures forall i :: 0 <= i < failedIndex ==> receipts[i] == targets[i].receipt
    ensures receipts[failedIndex] == Attempted(targets[failedIndex].receipt, attempted)
  {
    receipts := [];
    for index := 0 to failedIndex + 1
      invariant |receipts| == index
      invariant forall i :: 0 <= i < index && i < failedIndex ==> receipts[i] == targets[i].receipt
      invariant index == failedIndex + 1 ==> receipts[failedIndex] == Attempted(targets[failedIndex].receipt, attempted)
    {
      var item := targets[index].receipt;
      if index == failedIndex && attempted.Some? && attempted.value !in item.addedPlugins {
        item := item.(addedPlugins := item.addedPlugins + [attempted.value]);
      }
      receipts := receipts + [item];
    }
  }

  function Attempted(item: ProviderReceipt, attempted: Option<string>): ProviderReceipt {
    if attempted.Some? && attempted.value !in item.addedPlugins
    then item.(addedPlugins := item.addedPlugins + [attempted.value])
    else item
  }

  /** What planning left: each target lacks `toInstall`, and its receipt owns all of it. */
  ghost predicate Planned(targets: seq<Target>, selected: seq<string>, source: string) {
    && source != ""
    && Distinct(Names(Receipts(targets)))
    && forall i :: 0 <= i < |targets| ==> PlannedOne(targets[i], selected, source)
  }

  ghost predicate PlannedOne(t: Target, selected: seq<string>, source: string) {
    && t.receipt.name == t.name
    && t.toInstall == MissingPlugins(selected, t.before)
    && Usable(t.before, selected, source)
    && forall p :: p in t.toInstall ==> p in t.receipt.addedPlugins
  }

  /** While a provider still lacks something, no provider after it has been touched.  This is what
      makes it safe for a failed run to forget the later ones. */
  ghost predicate LaterUntouched(base: Inventories, now: Inventories, names: seq<Name>, selected: seq<string>,
                                 source: string) {
    forall i, j :: 0 <= i < j < |names| && !Complete(now.At(names[i]), selected, source)
      ==> now.At(names[j]) == base.At(names[j])
  }

  datatype ActivationResult =
    | Activated
    | ActivationFailed(index: nat, receipts: seq<ProviderReceipt>)
    | ActivationStopped

  /** The state in the middle of activation, with the first `index` providers done. */
  ghost predicate Midway(base: Inventories, now: Inventories, targets: seq<Target>, index: nat, selected: seq<string>,
                         source: string)
    requires index <= |targets|
  {
    && AccountsForAll(base, now, Receipts(targets), source)
    && LaterUntouched(base, now, Names(Receipts(targets)), selected, source)
    && (forall i :: 0 <= i < index ==> Complete(now.At(targets[i].name), selected, source))
    && (forall i :: index <= i < |targets| ==> now.At(targets[i].name) == targets[i].before)
  }

  lemma AccountsForOthers(base: Inventories, before: Inventories, now: Inventories, targets: seq<Target>, index: nat,
                          source: string)
    requires index < |targets|
    requires forall i :: 0 <= i < |targets| ==> targets[i].receipt.name == targets[i].name
    requires AccountsForAll(base, before, Receipts(targets), source)
    requires forall n: Name :: n != targets[index].name ==> now.At(n) == before.At(n)
    requires Accounts(base.At(targets[index].name), now.At(targets[index].name), targets[index].receipt, source)
    requires Distinct(Names(Receipts(targets)))
    ensures AccountsForAll(base, now, Receipts(targets), source)
  {
    var items := Receipts(targets);
    assert Names(items)[index] == targets[index].name;
    forall i | 0 <= i < |items| ensures Accounts(base.At(items[i].name), now.At(items[i].name), items[i], source) {
      if i != index {
        assert Names(items)[i] != Names(items)[index];
      }
    }
  }

  /** Activates one provider.  At every moment the receipt, together with the plugin being
      installed, accounts for what has been done so far. */
  method ActivateProvider(host: Host, t: Target, selected: seq<string>, source: string, ghost base: Inventories)
    returns (outcome: Outcome, attempted: Option<string>, receipt: ProviderReceipt)
    requires source != ""
    requires t.receipt.name == t.name && t.before == host.inventories.At(t.name)
    requires t.toInstall == MissingPlugins(selected, t.before) && Usable(t.before, selected, source)
    requires forall p :: p in t.toInstall ==> p !in base.At(t.name).plugins
    requires Accounts(base.At(t.name), t.before, t.receipt, source)
    modifies host`inventories
    ensures forall n: Name :: n != t.name ==> host.inventories.At(n) == old(host.inventories).At(n)
    ensures Accounts(base.At(t.name), host.inventories.At(t.name), Attempted(receipt, attempted), source)
    ensures Extends(t, Attempted(receipt, attempted))
    ensures outcome.Done? ==> attempted.None? && Complete(host.inventories.At(t.name), selected, source)
    ensures !outcome.Done? ==> !Complete(t.before, selected, source)
    ensures Complete(t.before, selected, source) ==> host.inventories == old(host.inventories)
    ensures host.reliable ==> outcome.Done?
  {
    hide Accounts, Complete, Installed, Extends;
    attempted, receipt := None, t.receipt;
    LacksSomething(t, selected, source);
    ActivationBegins(base.At(t.name), t, selected, source);
    if t.receipt.marketplaceAdded && t.before.marketplace.None? {
      outcome := host.AddMarketplace(t.name, source);
      if !outcome.Done? {
        return;
      }
    }
    for k := 0 to |t.toInstall|
      invariant attempted.None? && Extends(t, receipt)
      invariant forall n: Name :: n != t.name ==> host.inventories.At(n) == old(host.inventories).At(n)
      invariant Accounts(base.At(t.name), host.inventories.At(t.name), receipt, source)
      invariant Installed(t, host.inventories.At(t.name), k, source)
      invariant k == 0 && t.before.marketplace == Some(source) ==> host.inventories == old(host.inventories)
    {
      var plugin := t.toInstall[k];
      assert plugin in t.toInstall;
      ghost var s := host.inventories.At(t.name);
      attempted := Some(plugin);
      var version: string;
      outcome, version := host.InstallPlugin(t.name, plugin);
      InstallStep(base.At(t.name), s, host.inventories.At(t.name), receipt, plugin, version, source);
      AttemptExtends(t, receipt, plugin);
      if !outcome.Done? {
        return;
      }
      InstalledStep(t, s, host.inventories.At(t.name), k, version, source);
      receipt, attempted := Attempted(receipt, attempted), None;
    }
    outcome := Done;
    AllInstalled(t, host.inventories.At(t.name), selected, source);
  }

  lemma LacksSomething(t: Target, selected: seq<string>, source: string)
    requires t.toInstall == MissingPlugins(selected, t.before)
    ensures t.before.marketplace != Some(source) || t.toInstall != [] ==> !Complete(t.before, selected, source)
  {}

  /** Where the installations start from, with or without the Marketplace step. */
  lemma ActivationBegins(base: ProviderState, t: Target, selected: seq<string>, source: string)
    requires Usable(t.before, selected, source) && Accounts(base, t.before, t.receipt, source)
    ensures Extends(t, t.receipt)
    ensures t.receipt.marketplaceAdded && t.before.marketplace.None? ==>
      var s := t.before.(marketplace := Some(source));
      Accounts(base, s, t.receipt, source) && Installed(t, s, 0, source)
    ensures !(t.receipt.marketplaceAdded && t.before.marketplace.None?) ==>
      t.before.marketplace == Some(source) && Installed(t, t.before, 0, source)
  {}

  /** The first `k` plugins of the plan are in, on top of what was there. */
  ghost predicate Installed(t: Target, s: ProviderState, k: nat, source: string)
    requires k <= |t.toInstall|
  {
    && s.marketplace == Some(source)
    && (forall p :: p in t.before.plugins ==>
          p in s.plugins && (s.plugins[p] == t.before.plugins[p] || s.plugins[p].enabled))
    && (forall j :: 0 <= j < k ==> t.toInstall[j] in s.plugins && s.plugins[t.toInstall[j]].enabled)
  }

  lemma AllInstalled(t: Target, s: ProviderState, selected: seq<string>, source: string)
    requires t.toInstall == MissingPlugins(selected, t.before) && Usable(t.before, selected, source)
    requires Installed(t, s, |t.toInstall|, source)
    ensures Complete(s, selected, source)
  {}

  lemma InstalledStep(t: Target, s: ProviderState, after: ProviderState, k: nat, version: string, source: string)
    requires k < |t.toInstall| && Installed(t, s, k, source)
    requires after == s.(plugins := s.plugins[t.toInstall[k] := Plugin(version, true)])
    ensures Installed(t, after, k + 1, source)
  {}

  lemma InstallStep(base: ProviderState, s: ProviderState, after: ProviderState, item: ProviderReceipt, plugin: string,
                    version: string, source: string)
    requires Accounts(base, s, item, source) && plugin !in base.plugins
    requires after == s || after == s.(plugins := s.plugins[plugin := Plugin(version, true)])
    ensures Accounts(base, after, Attempted(item, Some(plugin)), source)
  {}

  lemma AttemptExtends(t: Target, item: ProviderReceipt, plugin: string)
    requires Extends(t, item) && plugin in t.toInstall
    ensures Extends(t, Attempted(item, Some(plugin)))
  {}

  /** `item` is the target's receipt plus some of what the target installs. */
  ghost predicate Extends(t: Target, item: ProviderReceipt) {
    && item == t.receipt.(addedPlugins := item.addedPlugins)
    && (forall p :: p in item.addedPlugins ==> p in t.receipt.addedPlugins || p in t.toInstall)
    && (Distinct(t.receipt.addedPlugins) ==> Distinct(item.addedPlugins))
    && ((forall p :: p in t.toInstall ==> p in t.receipt.addedPlugins) ==> item == t.receipt)
  }

  lemma IntentIsKept(t: Target, item: ProviderReceipt, selected: seq<string>, source: string)
    requires PlannedOne(t, selected, source) && Extends(t, item)
    ensures item == t.receipt
  {}

  lemma ReadyToActivate(base: Inventories, now: Inventories, targets: seq<Target>, index: nat, selected: seq<string>,
                        source: string)
    requires Planned(targets, selected, source)
    requires index < |targets| && Midway(base, now, targets, index, selected, source)
    ensures var t := targets[index];
            && source != "" && PlannedOne(t, selected, source) && t.before == now.At(t.name)
            && Accounts(base.At(t.name), t.before, t.receipt, source)
            && forall p :: p in t.toInstall ==> p !in base.At(t.name).plugins
  {
    assert Receipts(targets)[index] == targets[index].receipt;
  }

  lemma ActivatedOneMore(base: Inventories, before: Inventories, now: Inventories, targets: seq<Target>, index: nat,
                         selected: seq<string>, source: string)
    requires Planned(targets, selected, source)
    requires index < |targets| && Midway(base, before, targets, index, selected, source)
    requires var t := targets[index];
             && (forall n: Name :: n != t.name ==> now.At(n) == before.At(n))
             && Accounts(base.At(t.name), now.At(t.name), t.receipt, source)
             && (Complete(t.before, selected, source) ==> now == before)
    ensures AccountsForAll(base, now, Receipts(targets), source)
    ensures LaterUntouched(base, now, Names(Receipts(targets)), selected, source)
    ensures Complete(now.At(targets[index].name), selected, source) ==>
      Midway(base, now, targets, index + 1, selected, source)
  {
    hide Accounts, Complete;
    var names := Names(Receipts(targets));
    assert forall i :: 0 <= i < |targets| ==> names[i] == targets[i].name;
    assert forall i :: 0 <= i < |targets| && i != index ==> names[i] != names[index];
    AccountsForOthers(base, before, now, targets, index, source);
    StillUntouched(base, before, now, names, index, selected, source);
  }

  /** If a provider was incomplete, none after it has been touched. */
  lemma RestIsUntouched(base: Inventories, before: Inventories, now: Inventories, targets: seq<Target>, index: nat,
                        selected: seq<string>, source: string)
    requires Planned(targets, selected, source)
    requires index < |targets| && Midway(base, before, targets, index, selected, source)
    requires forall n: Name :: n != targets[index].name ==> now.At(n) == before.At(n)
    requires !Complete(targets[index].before, selected, source)
    ensures forall j :: index < j < |targets| ==> now.At(targets[j].name) == base.At(targets[j].name)
  {
    hide Accounts, Complete;
    var names := Names(Receipts(targets));
    assert names[index] == targets[index].name;
    forall j | index < j < |targets| ensures now.At(targets[j].name) == base.At(targets[j].name) {
      assert names[j] == targets[j].name && names[j] != names[index];
    }
  }

  method ActivateNext(host: Host, targets: seq<Target>, index: nat, selected: seq<string>, source: string,
                      ghost base: Inventories)
    returns (outcome: Outcome, receipts: seq<ProviderReceipt>)
    requires Planned(targets, selected, source)
    requires index < |targets| && Midway(base, host.inventories, targets, index, selected, source)
    modifies host`inventories
    ensures AccountsForAll(base, host.inventories, Receipts(targets), source)
    ensures LaterUntouched(base, host.inventories, Names(Receipts(targets)), selected, source)
    ensures outcome.Done? ==> Midway(base, host.inventories, targets, index + 1, selected, source)
    ensures outcome.Failed? ==>
      && receipts == Receipts(targets)[..index + 1]
      && forall j :: index < j < |targets| ==> host.inventories.At(targets[j].name) == base.At(targets[j].name)
    ensures host.reliable ==> outcome.Done?
  {
    hide Planned, Midway, Accounts, Complete, Extends, LaterUntouched, AccountsForAll;
    ghost var before := host.inventories;
    ReadyToActivate(base, before, targets, index, selected, source);
    var attempted, receipt;
    outcome, attempted, receipt := ActivateProvider(host, targets[index], selected, source, base);
    IntentIsKept(targets[index], Attempted(receipt, attempted), selected, source);
    ActivatedOneMore(base, before, host.inventories, targets, index, selected, source);
    receipts := [];
    if outcome.Failed? {
      RestIsUntouched(base, before, host.inventories, targets, index, selected, source);
      receipts := CandidateReceipts(targets[index := targets[index].(receipt := receipt)], index, attempted);
      assert receipts == Receipts(targets)[..index + 1];
    }
  }

  /** Brings the providers to completion in order.  A failure yields the receipts to compensate. */
  method ActivateDeploymentProviders(host: Host, targets: seq<Target>, selected: seq<string>, source: string,
                                     ghost base: Inventories)
    returns (result: ActivationResult)
    requires Planned(targets, selected, source)
    requires Midway(base, host.inventories, targets, 0, selected, source)
    modifies host`inventories
    ensures AccountsForAll(base, host.inventories, Receipts(targets), source)
    ensures LaterUntouched(base, host.inventories, Names(Receipts(targets)), selected, source)
    ensures result.Activated? ==> forall i :: 0 <= i < |targets| ==>
      Complete(host.inventories.At(targets[i].name), selected, source)
    ensures result.ActivationFailed? ==>
      && result.index < |targets|
      && result.receipts == Receipts(targets)[..result.index + 1]
      && forall j :: result.index < j < |targets| ==> host.inventories.At(targets[j].name) == base.At(targets[j].name)
    ensures host.reliable ==> result.Activated?
  {
    for index := 0 to |targets|
      invariant Midway(base, host.inventories, targets, index, selected, source)
    {
      var outcome, receipts := ActivateNext(host, targets, index, selected, source, base);
      if outcome.Failed? {
        return ActivationFailed(index, receipts);
      }
      if outcome.Stopped? {
        return ActivationStopped;
      }
    }
    result := Activated;
  }

  lemma StillUntouched(base: Inventories, before: Inventories, now: Inventories, names: seq<Name>, index: nat,
                       selected: seq<string>, source: string)
    requires index < |names| && Distinct(names)
    requires LaterUntouched(base, before, names, selected, source)
    requires forall n: Name :: n != names[index] ==> now.At(n) == before.At(n)
    requires forall i :: 0 <= i < index ==> Complete(before.At(names[i]), selected, source)
    requires Complete(before.At(names[index]), selected, source) ==> now == before
    ensures LaterUntouched(base, now, names, selected, source)
  {}

  // ---------------------------------------------------------------- receipts of a run

  /** Providers in their fixed order, without repeats; none at all is an error. */
  function NormalizeProviders(values: seq<Name>): (names: Option<seq<Name>>)
    ensures names.Some? <==> values != []
    ensures names.Some? ==>
      Normalized(names.value) && (Codex in names.value <==> Codex in values)
        && (Claude in names.value <==> Claude in values)
  {
    if values == [] then None
    else
      assert values[0] in values && (values[0].Codex? || values[0].Claude?);
      Some(if Codex !in values then [Claude] else if Claude !in values then [Codex] else [Codex, Claude])
  }

  /** A receipt left by an earlier run may be resumed only by the same deployment. */
  predicate SameDeployment(receipt: Receipt, options: Options, names: seq<Name>) {
    && (receipt.boundProviders.Some? <==> options.evidence)
    && (receipt.boundProviders.Some? ==> receipt.boundProviders.value == names)
    && receipt.deployment
    && receipt.installationId == options.installationId
    && receipt.parameters == options.parameters
    && receipt.profile == options.profile
    && (receipt.providers == [] || Names(receipt.providers) == names)
  }

  ghost predicate AllComplete(inventories: Inventories, receipt: Receipt, source: string) {
    forall i :: 0 <= i < |receipt.providers| ==>
      Complete(inventories.At(receipt.providers[i].name), Plugins(receipt.profile), source)
  }

  /** Every receipt in it holds of the inventories as they are. */
  method VerifyReceipt(host: Host, receipt: Receipt, source: string) returns (matches: bool)
    requires forall item :: item in receipt.providers ==> item.selectedPlugins == Plugins(receipt.profile)
    ensures matches ==> forall i :: 0 <= i < |receipt.providers| ==>
      Complete(host.inventories.At(receipt.providers[i].name), Plugins(receipt.profile), source)
    ensures host.reliable && source != "" && AllComplete(host.inventories, receipt, source) ==> matches
  {
    matches := true;
    for index := 0 to |receipt.providers|
      invariant matches ==> forall i :: 0 <= i < index ==>
        Complete(host.inventories.At(receipt.providers[i].name), Plugins(receipt.profile), source)
      invariant host.reliable && source != "" && AllComplete(host.inventories, receipt, source) ==> matches
    {
      var item := receipt.providers[index];
      assert item in receipt.providers;
      var inventory := host.Inspect(item.name);
      if inventory.None? || inventory.value.marketplace.None? || ForeignMarketplace(inventory.value, source) {
        matches := false;
      } else {
        for k := 0 to |item.selectedPlugins|
          invariant matches ==> forall j :: 0 <= j < index ==>
            Complete(host.inventories.At(receipt.providers[j].name), Plugins(receipt.profile), source)
          invariant matches ==> forall p :: p in item.selectedPlugins[..k] ==>
            p in inventory.value.plugins && inventory.value.plugins[p].enabled
          invariant host.reliable && source != "" && AllComplete(host.inventories, receipt, source) ==> matches
        {
          var p := item.selectedPlugins[k];
          if p !in inventory.value.plugins || !inventory.value.plugins[p].enabled {
            matches := false;
          }
          assert item.selectedPlugins[..k + 1] == item.selectedPlugins[..k] + [p];
        }
        assert item.selectedPlugins[..|item.selectedPlugins|] == item.selectedPlugins;
      }
    }
  }

  /** What a run of deployment initialization asks of the state it starts from. */
  ghost predicate Acceptable(inventories: Inventories, persisted: Option<Receipt>, options: Options) {
    var names := NormalizeProviders(options.providers);
    && names.Some?
    && (match persisted
        case None => options.evidence
        case Some(receipt) =>
          ValidReceipt(receipt) && !receipt.phase.PhaseManualCleanup? && SameDeployment(receipt, options, names.value))
    && forall n :: n in names.value ==> Usable(inventories.At(n), Plugins(options.profile), options.source)
  }

  /** The read-only gate before anything is written; `remote` is what the checks of the repositories and
      the Project say. */
  method PrepareDeployment(host: Host, options: Options, remote: bool)
    returns (prepared: Option<(seq<Name>, Option<Receipt>)>)
    ensures prepared.Some? ==>
      && NormalizeProviders(options.providers) == Some(prepared.value.0) && prepared.value.1 == host.persisted
    ensures prepared.Some? ==> remote && Acceptable(host.inventories, host.persisted, options)
    ensures host.reliable && remote && Acceptable(host.inventories, host.persisted, options) ==> prepared.Some?
  {
    var names := NormalizeProviders(options.providers);
    if names.None? {
      return None;
    }
    var existing := host.ReadReceipt();
    if existing.Err? || (existing.value.None? && !options.evidence) {
      return None;
    }
    if existing.value.Some? {
      if !SameDeployment(existing.value.value, options, names.value) || existing.value.value.phase.PhaseManualCleanup? {
        return None;
      }
    }
    if !remote {
      return None;
    }
    var planned := PrepareProviderTargets(host, Plugins(options.profile), names.value, options.source);
    if planned.None? {
      return None;
    }
    prepared := Some((names.value, existing.value));
  }

  /** Repositories and the Project: any number of journalled steps, none of which concerns the
      providers.  The last of them records the linked Project. */
  method ProvisionRemote(host: Host, receipt: Receipt) returns (done: bool, current: Receipt)
    requires host.persisted == Some(receipt) && ValidReceipt(receipt) && !receipt.phase.PhaseManualCleanup?
    modifies host`persisted
    ensures current == receipt.(projectRecorded := current.projectRecorded, phase := current.phase)
    ensures host.persisted.Some? && ValidReceipt(host.persisted.value)
      && !host.persisted.value.phase.PhaseManualCleanup?
    ensures host.persisted.value
      == receipt.(projectRecorded := host.persisted.value.projectRecorded, phase := host.persisted.value.phase)
    ensures done ==> host.persisted == Some(current) && current.projectRecorded
    ensures host.reliable ==> done
  {
    current := receipt;
    var steps :| 0 <= steps;
    for step := 0 to steps + 1
      invariant current == receipt.(projectRecorded := current.projectRecorded, phase := current.phase)
      invariant !current.phase.PhaseManualCleanup?
      invariant host.persisted == Some(current) && ValidReceipt(current)
      invariant step == steps + 1 ==> current.projectRecorded
    {
      var projectStep: bool, failed: bool := *, *;
      if projectStep || step == steps {
        current := current.(projectRecorded := true, phase := PhaseProvisioning);
      }
      if failed && !host.reliable {
        current := current.(phase := PhaseNeedsResume);
      }
      var outcome := host.WriteReceipt(current);
      if (failed && !host.reliable) || !outcome.Done? {
        return false, current;
      }
    }
    done := true;
  }

  // ---------------------------------------------------------------- deployment

  /** A new claim over what is missing is as honest as the receipt it extends. */
  lemma ClaimAccounts(base: ProviderState, t: Target, profile: Profile, source: string)
    requires Accounts(base, t.before, t.receipt, source)
    requires ValidProviderReceipt(t.receipt, profile)
    requires t.toInstall == MissingPlugins(Plugins(profile), t.before)
    ensures Accounts(base, t.before, Claimed(t), source)
    ensures ValidProviderReceipt(Claimed(t), profile)
    ensures forall p :: p in t.toInstall ==> p in Claimed(t).addedPlugins
  {
    AppendMissingMembers(t.receipt.addedPlugins, t.toInstall);
  }

  /** The receipt a plan starts from, for one provider: the recorded one, or an empty claim. */
  lemma MergedAccounts(base: Inventories, now: Inventories, existing: seq<ProviderReceipt>, names: seq<Name>, i: nat,
                       profile: Profile, source: string)
    requires i < |names| && (existing == [] || Names(existing) == names)
    requires Distinct(names)
    requires AccountsForAll(base, now, existing, source)
    requires forall item :: item in existing ==> ValidProviderReceipt(item, profile)
    ensures var planned := PlannedTarget(names[i], now.At(names[i]), Plugins(profile));
            var item := match Recorded(existing, names[i]) case Some(r) => r case None => planned.receipt;
            && item.name == names[i]
            && Accounts(base.At(names[i]), now.At(names[i]), item, source)
            && ValidProviderReceipt(item, profile)
  {
    var recorded := Recorded(existing, names[i]);
    if recorded.Some? {
      var k :| 0 <= k < |existing| && existing[k] == recorded.value;
    } else {
      assert names[i] !in Names(existing);
    }
  }

  lemma NormalizedIsDistinct(names: seq<Name>)
    requires Normalized(names)
    ensures Distinct(names) && 1 <= |names| <= 2
  {}

  /** Planning on top of an honest receipt yields an intent that is honest, complete and valid. */
  lemma IntentIsReady(base: Inventories, now: Inventories, receipt: Receipt, names: seq<Name>, merged: seq<Target>,
                      declared: seq<Target>, source: string)
    requires source != "" && Normalized(names)
    requires OwnershipInvariant(base, now, Some(receipt), source) && !receipt.phase.PhaseManualCleanup?
    requires receipt.deployment && (receipt.providers == [] || Names(receipt.providers) == names)
    requires receipt.boundProviders.Some? ==> receipt.boundProviders.value == names
    requires |merged| == |declared| == |names|
    requires forall i :: 0 <= i < |names| ==>
      var planned := PlannedTarget(names[i], now.At(names[i]), Plugins(receipt.profile));
      && Usable(now.At(names[i]), Plugins(receipt.profile), source)
      && merged[i] == match Recorded(receipt.providers, names[i])
                      case Some(item) => planned.(receipt := item)
                      case None => planned
    requires forall i :: 0 <= i < |names| ==> declared[i] == merged[i].(receipt := Claimed(merged[i]))
    ensures Planned(declared, Plugins(receipt.profile), source)
    ensures Midway(base, now, declared, 0, Plugins(receipt.profile), source)
    ensures Names(Receipts(declared)) == names
    ensures ValidReceipt(receipt.(providers := Receipts(declared), phase := PhaseProvisioning))
  {
    var selected := Plugins(receipt.profile);
    var items := Receipts(declared);
    NormalizedIsDistinct(names);
    forall i | 0 <= i < |names|
      ensures PlannedOne(declared[i], selected, source)
      ensures declared[i].name == items[i].name == names[i] && declared[i].before == now.At(names[i])
      ensures Accounts(base.At(names[i]), now.At(names[i]), items[i], source)
      ensures ValidProviderReceipt(items[i], receipt.profile)
    {
      MergedAccounts(base, now, receipt.providers, names, i, receipt.profile, source);
      ClaimAccounts(base.At(names[i]), merged[i], receipt.profile, source);
    }
    assert Names(items) == names;
    forall i, j | 0 <= i < j < |names| && !Complete(now.At(names[i]), selected, source)
      ensures now.At(names[j]) == base.At(names[j])
    {
      if receipt.providers != [] {
        assert Names(receipt.providers)[i] == receipt.providers[i].name
          && Names(receipt.providers)[j] == receipt.providers[j].name;
      } else {
        assert names[j] !in Names(receipt.providers);
      }
    }
    forall n: Name | n !in names ensures now.At(n) == base.At(n) {
      assert n !in Names(receipt.providers);
    }
  }

  lemma CandidatesAccount(base: Inventories, now: Inventories, items: seq<ProviderReceipt>, count: nat, source: string)
    requires count <= |items| && AccountsForAll(base, now, items, source)
    requires forall j :: count <= j < |items| ==> now.At(items[j].name) == base.At(items[j].name)
    ensures AccountsForAll(base, now, items[..count], source)
  {
    hide Accounts;
    var names := Names(items);
    assert Names(items[..count]) == names[..count];
    assert forall j :: 0 <= j < count ==> names[j] in names[..count];
    forall n: Name | n !in names[..count] ensures now.At(n) == base.At(n) {
      if n in names {
        var j :| 0 <= j < |names| && names[j] == n;
      }
    }
  }

  /** Whether the receipt of a failed compensation can be written: an evidence binding names all providers,
      and so rules it out where the failed activation did not get to the last of them. */
  predicate CleanupIsRecorded(intent: Receipt, attempted: nat) {
    intent.boundProviders.None? || attempted == |intent.providers|
  }

  /** What a failed compensation leaves on file. */
  function AfterFailedCleanup(intent: Receipt, attempted: nat): Receipt
    requires attempted <= |intent.providers|
  {
    if CleanupIsRecorded(intent, attempted)
    then intent.(providers := intent.providers[..attempted], phase := PhaseManualCleanup)
    else intent
  }

  lemma ShortenedIsValidExactly(intent: Receipt, attempted: nat)
    requires ValidReceipt(intent) && 0 < attempted <= |intent.providers|
    ensures ValidReceipt(intent.(providers := intent.providers[..attempted], phase := PhaseManualCleanup))
       <==> CleanupIsRecorded(intent, attempted)
  {
    var names := Names(intent.providers);
    var shortened := intent.providers[..attempted];
    assert Names(shortened) == names[..attempted];
    assert forall item :: item in shortened ==> item in intent.providers;
    assert attempted == |names| ==> names[..attempted] == names;
  }

  /** Compensation of a failed activation, and the receipt that records how it went. */
  method Recover(host: Host, intent: Receipt, candidates: seq<ProviderReceipt>, source: string, ghost base: Inventories)
    returns (result: InitResult)
    requires host.persisted == Some(intent) && ValidReceipt(intent)
    requires intent.deployment && intent.phase.PhaseProvisioning?
    requires AccountsForAll(base, host.inventories, intent.providers, source)
    requires 0 < |candidates| <= |intent.providers| && candidates == intent.providers[..|candidates|]
    requires forall j :: |candidates| <= j < |intent.providers| ==>
      host.inventories.At(intent.providers[j].name) == base.At(intent.providers[j].name)
    modifies host
    ensures OwnershipInvariant(base, host.inventories, host.persisted, source)
    ensures result.RolledBack? || result.CleanupIncomplete?
    ensures result.RolledBack? ==>
      && host.inventories == base
      && host.persisted == Some(intent.(providers := [], phase := PhaseNeedsResume))
    ensures result.CleanupIncomplete? ==>
      && result.attempted == |candidates| && host.persisted == Some(AfterFailedCleanup(intent, |candidates|))
      && forall j :: |candidates| <= j < |intent.providers| ==>
        host.inventories.At(intent.providers[j].name) == base.At(intent.providers[j].name)
  {
    hide Stripped, Shrunk, Accounts;
    ghost var before := host.inventories;
    CandidatesAccount(base, before, intent.providers, |candidates|, source);
    var clean := Compensate(host, candidates, source);
    var receipt := intent.(providers := candidates, phase := PhaseManualCleanup);
    if clean {
      AllStripped(base, before, host.inventories, candidates, source);
      receipt := intent.(providers := [], phase := PhaseNeedsResume);
    } else {
      ShrunkAll(base, before, host.inventories, candidates, source);
      ShrunkIntent(base, host.inventories, intent, candidates, source);
      ShortenedIsValidExactly(intent, |candidates|);
    }
    var written := host.WriteRecoveryReceipt(receipt);
    result := if clean then RolledBack else CleanupIncomplete(|candidates|);
  }

  lemma ShrunkAll(base: Inventories, before: Inventories, now: Inventories, items: seq<ProviderReceipt>, source: string)
    requires AccountsForAll(base, before, items, source)
    requires forall n: Name :: n !in Names(items) ==> now.At(n) == before.At(n)
    requires forall i :: 0 <= i < |items| ==> Shrunk(before.At(items[i].name), now.At(items[i].name), items[i])
    ensures AccountsForAll(base, now, items, source)
  {
    forall i | 0 <= i < |items| ensures Accounts(base.At(items[i].name), now.At(items[i].name), items[i], source) {
      ShrunkAccounts(base.At(items[i].name), before.At(items[i].name), now.At(items[i].name), items[i], source);
    }
  }

  /** Where the shortened receipt is not valid the intent stays on file, and it still holds: the
      forgotten provider was never touched. */
  lemma ShrunkIntent(base: Inventories, now: Inventories, intent: Receipt, candidates: seq<ProviderReceipt>,
                     source: string)
    requires ValidReceipt(intent) && intent.phase.PhaseProvisioning?
    requires 0 < |candidates| <= |intent.providers| && candidates == intent.providers[..|candidates|]
    requires AccountsForAll(base, now, candidates, source)
    requires forall i :: |candidates| <= i < |intent.providers| ==>
      Accounts(base.At(intent.providers[i].name), base.At(intent.providers[i].name), intent.providers[i], source)
    ensures var shortened := intent.(providers := candidates, phase := PhaseManualCleanup);
            OwnershipInvariant(base, now, if ValidReceipt(shortened) then Some(shortened) else Some(intent), source)
  {
    var shortened := intent.(providers := candidates, phase := PhaseManualCleanup);
    var names := Names(intent.providers);
    NormalizedIsDistinct(names);
    assert Names(candidates) == names[..|candidates|];
    forall i | |candidates| <= i < |names| ensures names[i] !in Names(candidates) {
      assert forall j :: 0 <= j < |candidates| ==> names[j] != names[i];
    }
    if |candidates| == |intent.providers| {
      assert candidates == intent.providers;
    }
    if !ValidReceipt(shortened) {
      assert |candidates| == 1 && |names| == 2;
      assert now.At(names[1]) == base.At(names[1]);
      forall i | 0 <= i < |names|
        ensures Accounts(base.At(names[i]), now.At(names[i]), intent.providers[i], source)
      {
        if i < |candidates| {
          assert candidates[i] == intent.providers[i];
        }
      }
      forall n: Name | n !in names ensures now.At(n) == base.At(n) {
        assert n !in Names(candidates);
      }
    } else {
      forall item | item in candidates ensures ValidProviderReceipt(item, intent.profile) {
        assert item in intent.providers;
      }
    }
  }

  /** A receipt that says `initialized`, and is right about it. */
  ghost predicate Fulfilled(base: Inventories, now: Inventories, receipt: Receipt, source: string) {
    && receipt.phase.PhaseInitialized? && receipt.providers != []
    && forall i :: 0 <= i < |receipt.providers| ==>
      var item := receipt.providers[i];
      && Complete(now.At(item.name), Plugins(receipt.profile), source)
      && (item.marketplaceAdded <==> base.At(item.name).marketplace.None?)
      && (forall p :: p in item.addedPlugins <==> p in Plugins(receipt.profile) && p !in base.At(item.name).plugins)
  }

  lemma CompleteIsFulfilled(base: Inventories, now: Inventories, receipt: Receipt, source: string)
    requires ValidReceipt(receipt) && receipt.phase.PhaseInitialized?
    requires AccountsForAll(base, now, receipt.providers, source)
    requires forall i :: 0 <= i < |receipt.providers| ==>
      Complete(now.At(receipt.providers[i].name), Plugins(receipt.profile), source)
    ensures Fulfilled(base, now, receipt, source)
    ensures OwnershipInvariant(base, now, Some(receipt), source)
  {
    forall i | 0 <= i < |receipt.providers|
      ensures var item := receipt.providers[i];
              && (item.marketplaceAdded <==> base.At(item.name).marketplace.None?)
              && (forall p :: p in item.addedPlugins
                    <==> p in Plugins(receipt.profile) && p !in base.At(item.name).plugins)
    {
      var item := receipt.providers[i];
      assert item in receipt.providers;
      OwnershipIsExact(base.At(item.name), now.At(item.name), item, receipt.profile, source);
    }
  }

  /** Writes the intent, activates, reads back; compensates when any of it fails. */
  method ActivateAndRecord(host: Host, receipt: Receipt, declared: seq<Target>, source: string, ghost base: Inventories)
    returns (result: InitResult)
    requires OwnershipInvariant(base, host.inventories, host.persisted, source)
    requires receipt.deployment && receipt.providers == Receipts(declared) && receipt.phase.PhaseProvisioning?
    requires ValidReceipt(receipt) && declared != []
    requires Planned(declared, Plugins(receipt.profile), source)
    requires Midway(base, host.inventories, declared, 0, Plugins(receipt.profile), source)
    modifies host
    ensures OwnershipInvariant(base, host.inventories, host.persisted, source)
    ensures !result.Rejected? && !result.AlreadyInitialized?
    ensures result.Initialized? ==>
      && host.persisted == Some(result.receipt)
      && result.receipt == receipt.(phase := PhaseInitialized)
      && Fulfilled(base, host.inventories, result.receipt, source)
    ensures result.RolledBack? ==>
      host.inventories == base && host.persisted == Some(receipt.(providers := [], phase := PhaseNeedsResume))
    ensures result.CleanupIncomplete? ==>
      && 0 < result.attempted <= |declared|
      && host.persisted == Some(AfterFailedCleanup(receipt, result.attempted))
      && forall j :: result.attempted <= j < |declared| ==>
        host.inventories.At(declared[j].name) == base.At(declared[j].name)
    ensures host.reliable ==> result.Initialized?
  {
    LaterUntouchedIsPrefixComplete(base, host.inventories, receipt, declared, source);
    var outcome := host.WriteReceipt(receipt);
    if !outcome.Done? {
      return if outcome.Stopped? then InitStopped else NotWritten;
    }
    var activation := ActivateDeploymentProviders(host, declared, Plugins(receipt.profile), source, base);
    LaterUntouchedIsPrefixComplete(base, host.inventories, receipt, declared, source);
    match activation
    case ActivationStopped =>
      return InitStopped;
    case ActivationFailed(index, receipts) =>
      result := Recover(host, receipt, receipts, source, base);
    case Activated =>
      forall item | item in receipt.providers ensures item.selectedPlugins == Plugins(receipt.profile) {
        assert ValidProviderReceipt(item, receipt.profile);
      }
      var matches := VerifyReceipt(host, receipt, source);
      if !matches {
        result := Recover(host, receipt, receipt.providers, source, base);
        return;
      }
      CompleteIsFulfilled(base, host.inventories, receipt.(phase := PhaseInitialized), source);
      outcome := host.WriteReceipt(receipt.(phase := PhaseInitialized));
      if !outcome.Done? {
        return if outcome.Stopped? then InitStopped else NotWritten;
      }
      result := Initialized(receipt.(phase := PhaseInitialized));
  }

  lemma LaterUntouchedIsPrefixComplete(base: Inventories, now: Inventories, receipt: Receipt, declared: seq<Target>,
                                       source: string)
    requires receipt.providers == Receipts(declared)
    requires LaterUntouched(base, now, Names(Receipts(declared)), Plugins(receipt.profile), source)
    ensures PrefixComplete(base, now, receipt, source)
  {}

  /** The receipt left by a failed compensation, as the next run finds it. */
  ghost predicate LeftOnFile(persisted: Option<Receipt>, current: Receipt, names: seq<Name>, attempted: nat) {
    && attempted <= |names| && persisted.Some? && ValidReceipt(persisted.value)
    && persisted.value == current.(providers := persisted.value.providers, phase := persisted.value.phase)
    && if current.boundProviders.None? || attempted == |names|
       then persisted.value.phase.PhaseManualCleanup? && Names(persisted.value.providers) == names[..attempted]
       else persisted.value.phase.PhaseProvisioning? && Names(persisted.value.providers) == names
  }

  lemma FailedCleanupIsLeftOnFile(current: Receipt, items: seq<ProviderReceipt>, names: seq<Name>, attempted: nat)
    requires Names(items) == names && 0 < attempted <= |items|
    requires ValidReceipt(current.(providers := items, phase := PhaseProvisioning))
    ensures var intent := current.(providers := items, phase := PhaseProvisioning);
            LeftOnFile(Some(AfterFailedCleanup(intent, attempted)), current, names, attempted)
  {
    var intent := current.(providers := items, phase := PhaseProvisioning);
    ShortenedIsValidExactly(intent, attempted);
    assert Names(items[..attempted]) == names[..attempted];
  }

  /** The provider half of a run.  Creating repositories takes time: the inventories are read again
      before the first mutation. */
  method ActivateCurrent(host: Host, current: Receipt, names: seq<Name>, options: Options, ghost base: Inventories)
    returns (result: InitResult)
    requires options.source != "" && Normalized(names)
    requires host.persisted == Some(current)
      && OwnershipInvariant(base, host.inventories, host.persisted, options.source)
    requires current.deployment && !current.phase.PhaseManualCleanup?
    requires current.providers == [] || Names(current.providers) == names
    requires current.boundProviders.Some? ==> current.boundProviders.value == names
    modifies host
    ensures OwnershipInvariant(base, host.inventories, host.persisted, options.source)
    ensures !result.Rejected? && !result.AlreadyInitialized?
    ensures result.Initialized? ==>
      host.persisted == Some(result.receipt) && Fulfilled(base, host.inventories, result.receipt, options.source)
    ensures result.RolledBack? ==>
      && host.inventories == base
      && host.persisted.Some? && host.persisted.value.providers == [] && host.persisted.value.phase.PhaseNeedsResume?
    ensures result.Initialized? ==>
      result.receipt == current.(providers := result.receipt.providers, phase := PhaseInitialized)
        && Names(result.receipt.providers) == names
    ensures result.CleanupIncomplete? ==>
      0 < result.attempted <= |names| && LeftOnFile(host.persisted, current, names, result.attempted)
    ensures host.reliable
      && (forall n :: n in names ==> Usable(old(host.inventories).At(n), Plugins(current.profile), options.source))
      ==> result.Initialized?
  {
    hide Fulfilled, LeftOnFile, AfterFailedCleanup;
    var planned := PrepareProviderTargets(host, Plugins(current.profile), names, options.source);
    if planned.None? {
      var outcome := host.WriteReceipt(current.(phase := PhaseNeedsResume));
      return if outcome.Stopped? then InitStopped else if outcome.Failed? then NotWritten else RemoteFailed;
    }
    var merged := MergeProviderOwnership(planned.value, current.providers);
    var declared, receipts := DeclareIntent(merged);
    assert receipts == Receipts(declared);
    IntentIsReady(base, host.inventories, current, names, merged, declared, options.source);
    result := ActivateAndRecord(host, current.(providers := receipts, phase := PhaseProvisioning), declared,
                                options.source, base);
    if result.CleanupIncomplete? {
      FailedCleanupIsLeftOnFile(current, receipts, names, result.attempted);
    }
  }

  /** Nothing is left to do for this receipt but to check it. */
  predicate Finished(persisted: Option<Receipt>) {
    persisted.Some? && persisted.value.phase.PhaseInitialized? && persisted.value.projectRecorded
  }

  ghost predicate AllUsable(inventories: Inventories, options: Options, names: seq<Name>) {
    forall n :: n in names ==> Usable(inventories.At(n), Plugins(options.profile), options.source)
  }

  /** After a failed compensation the receipt is marked for manual cleanup, and the next run refused, unless
      the deployment is evidence-bound and its activation did not get to the last provider: then nothing is
      marked, and the next run goes on as if nothing was left. */
  ghost predicate AfterIncompleteCleanup(inventories: Inventories, persisted: Option<Receipt>, options: Options,
                                         attempted: nat)
  {
    var names := NormalizeProviders(options.providers);
    && names.Some? && 0 < attempted <= |names.value| && persisted.Some?
    && (persisted.value.phase.PhaseManualCleanup? <==> !options.evidence || attempted == |names.value|)
    && (Acceptable(inventories, persisted, options) <==>
          options.evidence && attempted < |names.value| && AllUsable(inventories, options, names.value))
  }

  /** One run of deployment initialization, resumed or new. */
  method InitializeDeployment(host: Host, options: Options, remote: bool, ghost base: Inventories)
    returns (result: InitResult)
    requires options.source != "" && options.installationId != ""
    requires OwnershipInvariant(base, host.inventories, host.persisted, options.source)
    modifies host
    ensures OwnershipInvariant(base, host.inventories, host.persisted, options.source)
    ensures result.Rejected? || result.AlreadyInitialized? ==>
      host.inventories == old(host.inventories) && host.persisted == old(host.persisted)
    ensures !(remote && old(Acceptable(host.inventories, host.persisted, options))) ==> result.Rejected?
    ensures result.Initialized? || result.AlreadyInitialized? ==>
      host.persisted == Some(result.receipt) && Fulfilled(base, host.inventories, result.receipt, options.source)
    ensures result.RolledBack? ==>
      && host.inventories == base
      && host.persisted.Some? && host.persisted.value.providers == [] && host.persisted.value.phase.PhaseNeedsResume?
    ensures result.CleanupIncomplete? ==>
      AfterIncompleteCleanup(host.inventories, host.persisted, options, result.attempted)
    ensures result.Initialized? ==> !old(Finished(host.persisted))
    ensures result.AlreadyInitialized? ==> old(Finished(host.persisted))
    ensures host.reliable ==>
      (result.Initialized? || result.AlreadyInitialized? <==>
         remote && old(Acceptable(host.inventories, host.persisted, options)
                       && (Finished(host.persisted) ==>
                             AllComplete(host.inventories, host.persisted.value, options.source))))
    ensures result.Initialized? ==>
      Finished(host.persisted) && NormalizeProviders(options.providers) == Some(Names(result.receipt.providers))
      && SameDeployment(result.receipt, options, Names(result.receipt.providers))
  {
    var prepared := PrepareDeployment(host, options, remote);
    if prepared.None? {
      return Rejected;
    }
    var names := prepared.value.0;
    var receipt: Receipt;
    if prepared.value.1.Some? {
      receipt := prepared.value.1.value;
      if receipt.phase.PhaseInitialized? && receipt.projectRecorded {
        var matches := VerifyReceipt(host, receipt, options.source);
        if !matches {
          return Rejected;
        }
        CompleteIsFulfilled(base, host.inventories, receipt, options.source);
        return AlreadyInitialized(receipt);
      }
    } else {
      receipt := Receipt(options.installationId, true, options.parameters, options.profile, Some(names), false,
                         PhaseProvisioning, []);
      var outcome := host.WriteReceipt(receipt);
      if !outcome.Done? {
        return if outcome.Stopped? then InitStopped else NotWritten;
      }
    }
    var done, current := ProvisionRemote(host, receipt);
    if !done {
      return RemoteFailed;
    }
    result := ActivateCurrent(host, current, names, options, base);
  }

  const SOME_SOURCE := "/opt/agx/components/agent-plugins"

  /** A deployment bound to both providers, before its first mutation. */
  function SomeIntent(): Receipt {
    var selected := Plugins(Core);
    Receipt("install-0", true, "", Core, Some([Codex, Claude]), true, PhaseProvisioning,
            [ProviderReceipt(Codex, true, selected, selected), ProviderReceipt(Claude, true, selected, selected)])
  }

  function SomeOptions(): Options {
    Options("install-0", "", Core, true, [Codex, Claude], SOME_SOURCE)
  }

  /** Nothing installed but the Marketplace of Codex. */
  function SomeLeftover(): Inventories {
    Inventories(ProviderState(Some(SOME_SOURCE), map[]), ProviderState(None, map[]))
  }

  function NothingThere(): Inventories {
    Inventories(ProviderState(None, map[]), ProviderState(None, map[]))
  }

  lemma SomeIntentIsValid()
    ensures ValidReceipt(SomeIntent())
  {
    assert Names(SomeIntent().providers) == [Codex, Claude];
  }

  /** Both providers selected; Codex fails once its Marketplace is there, and the Marketplace cannot be
      removed.  No receipt says so: the intent stays on file, and it is one that the next run accepts. */
  lemma FailedCleanupIsForgotten()
    ensures var (base, now, intent) := (NothingThere(), SomeLeftover(), SomeIntent());
            && now != base && OwnershipInvariant(base, now, Some(intent), SOME_SOURCE)
            && Undone(now.codex, now.codex, intent.providers[0], SOME_SOURCE, false)
            && now.codex != Stripped(now.codex, intent.providers[0])
            && AfterFailedCleanup(intent, 1) == intent && !intent.phase.PhaseManualCleanup?
            && Acceptable(now, Some(intent), SomeOptions())
  {
    hide Plugins;
    SomeIntentIsValid();
    assert Names(SomeIntent().providers) == [Codex, Claude];
  }

  /** And it does go on with it. */
  method ForgottenCleanupIsResumed() returns (host: Host, result: InitResult)
    ensures fresh(host) && result.Initialized?
  {
    hide OwnershipInvariant, Acceptable, AfterFailedCleanup;
    host := new Host(SomeLeftover(), Some(SomeIntent()), true);
    FailedCleanupIsForgotten();
    result := InitializeDeployment(host, SomeOptions(), true, NothingThere());
  }

  // ---------------------------------------------------------------- providers only

  /** Ends a failed provider-only initialization.  Nothing is recorded if everything could be undone. */
  method FailedInitialization(host: Host, receipt: Receipt, source: string, ghost base: Inventories)
    returns (result: InitResult)
    requires host.persisted.None? && ValidReceipt(receipt)
    requires AccountsForAll(base, host.inventories, receipt.providers, source)
    modifies host
    ensures result.RolledBack? || result.CleanupIncomplete? || result.NotWritten? || result.InitStopped?
    ensures result.RolledBack? ==> host.inventories == base && host.persisted.None?
    ensures result.CleanupIncomplete? ==>
      && host.persisted == Some(receipt.(phase := PhaseManualCleanup))
      && OwnershipInvariant(base, host.inventories, host.persisted, source)
    ensures !result.RolledBack? ==> AccountsForAll(base, host.inventories, receipt.providers, source)
    ensures result.NotWritten? ==> host.persisted.None?
    ensures result.InitStopped? ==>
      host.persisted.None? || OwnershipInvariant(base, host.inventories, host.persisted, source)
  {
    ghost var before := host.inventories;
    if receipt.providers != [] {
      NormalizedIsDistinct(Names(receipt.providers));
    }
    var clean := Compensate(host, receipt.providers, source);
    if clean {
      AllStripped(base, before, host.inventories, receipt.providers, source);
      return RolledBack;
    }
    ShrunkAll(base, before, host.inventories, receipt.providers, source);
    var outcome := host.WriteReceipt(receipt.(phase := PhaseManualCleanup));
    result :=
      if outcome.Done? then CleanupIncomplete(|receipt.providers|)
      else if outcome.Failed? then NotWritten
      else InitStopped;
  }

  /** The state in the middle of a provider-only run: `targets[..index]` are done. */
  ghost predicate Underway(base: Inventories, now: Inventories, targets: seq<Target>, index: nat, names: seq<Name>,
                           profile: Profile, source: string)
    requires index <= |targets|
  {
    && |targets| == |names|
    && (forall i :: 0 <= i < |names| ==> targets[i].name == names[i] && targets[i].receipt.name == names[i])
    && AccountsForAll(base, now, Receipts(targets[..index]), source)
    && (forall i :: 0 <= i < index ==> ValidProviderReceipt(targets[i].receipt, profile))
    && (forall i :: 0 <= i < index ==> Complete(now.At(names[i]), Plugins(profile), source))
    && (forall i :: index <= i < |names| ==>
          && targets[i] == PlannedTarget(names[i], base.At(names[i]), Plugins(profile))
          && Usable(base.At(names[i]), Plugins(profile), source))
  }

  lemma UnderwayStep(base: Inventories, before: Inventories, now: Inventories, targets: seq<Target>, index: nat,
                     names: seq<Name>, profile: Profile, item: ProviderReceipt, source: string)
    requires index < |targets| && Distinct(names)
    requires Underway(base, before, targets, index, names, profile, source)
    requires forall n: Name :: n != names[index] ==> now.At(n) == before.At(n)
    requires Accounts(base.At(names[index]), now.At(names[index]), item, source) && item.name == names[index]
    requires ValidProviderReceipt(item, profile)
    ensures AccountsForAll(base, now, Receipts(targets[..index]) + [item], source)
    ensures forall r :: r in Receipts(targets[..index]) + [item] ==> ValidProviderReceipt(r, profile)
    ensures Names(Receipts(targets[..index]) + [item]) == names[..index + 1]
    ensures forall i :: 0 <= i < index ==> now.At(names[i]) == before.At(names[i])
  {
    hide Accounts, Complete, ValidProviderReceipt, PlannedTarget, Usable;
    var items := Receipts(targets[..index]) + [item];
    assert forall i :: 0 <= i < index ==> names[i] != names[index];
    assert Names(items) == names[..index + 1];
    assert forall i :: 0 <= i < index ==> Names(Receipts(targets[..index]))[i] == Names(items)[i];
    forall n: Name | n !in Names(items) ensures now.At(n) == base.At(n) {
      assert Names(items)[index] == names[index];
      assert n !in Names(Receipts(targets[..index]));
    }
    forall i | 0 <= i < |items| ensures Accounts(base.At(items[i].name), now.At(items[i].name), items[i], source) {
      if i < index {
        assert items[i] == Receipts(targets[..index])[i];
      }
    }
  }

  /** A list of receipts that claims all that has been done to the providers it names. */
  ghost predicate Claims(base: Inventories, now: Inventories, receipts: seq<ProviderReceipt>, names: seq<Name>,
                         profile: Profile, source: string) {
    && AccountsForAll(base, now, receipts, source)
    && (forall r :: r in receipts ==> ValidProviderReceipt(r, profile))
    && receipts != [] && |receipts| <= |names| && Names(receipts) == names[..|receipts|]
  }

  method ActivateAlone(host: Host, targets: seq<Target>, index: nat, names: seq<Name>, profile: Profile, source: string,
                       ghost base: Inventories)
    returns (outcome: Outcome, attempted: Option<string>, receipt: ProviderReceipt)
    requires source != "" && Normalized(names) && index < |targets|
    requires Underway(base, host.inventories, targets, index, names, profile, source)
    modifies host`inventories
    ensures Claims(base, host.inventories, Receipts(targets[..index]) + [Attempted(receipt, attempted)], names, profile,
                   source)
    ensures outcome.Done? ==> attempted.None?
    ensures host.reliable ==> outcome.Done?
    ensures outcome.Done? ==>
      Underway(base, host.inventories, targets[index := targets[index].(receipt := receipt)], index + 1, names, profile,
               source)
  {
    hide Accounts, Complete, Extends, Underway;
    NormalizedIsDistinct(names);
    ghost var before := host.inventories;
    NextIsPlanned(base, before, targets, index, names, profile, source);
    outcome, attempted, receipt := ActivateProvider(host, targets[index], Plugins(profile), source, base);
    ExtendedIsValid(targets[index], before.At(names[index]), profile, Attempted(receipt, attempted));
    UnderwayStep(base, before, host.inventories, targets, index, names, profile, Attempted(receipt, attempted), source);
    if outcome.Done? {
      UnderwayNext(base, before, host.inventories, targets, index, names, profile, receipt, source);
    }
  }

  lemma NextIsPlanned(base: Inventories, now: Inventories, targets: seq<Target>, index: nat, names: seq<Name>,
                      profile: Profile, source: string)
    requires Distinct(names) && index < |targets| && Underway(base, now, targets, index, names, profile, source)
    ensures |targets| == |names| && now.At(names[index]) == base.At(names[index])
    ensures targets[index] == PlannedTarget(names[index], now.At(names[index]), Plugins(profile))
    ensures Usable(now.At(names[index]), Plugins(profile), source)
    ensures Accounts(base.At(names[index]), now.At(names[index]), targets[index].receipt, source)
  {}

  lemma ExtendedIsValid(t: Target, s: ProviderState, profile: Profile, item: ProviderReceipt)
    requires t == PlannedTarget(t.name, s, Plugins(profile)) && Extends(t, item)
    ensures ValidProviderReceipt(item, profile) && item.name == t.name
  {}

  lemma UnderwayNext(base: Inventories, before: Inventories, now: Inventories, targets: seq<Target>, index: nat,
                     names: seq<Name>, profile: Profile, receipt: ProviderReceipt, source: string)
    requires index < |targets|
    requires Underway(base, before, targets, index, names, profile, source)
    requires AccountsForAll(base, now, Receipts(targets[..index]) + [receipt], source)
    requires receipt.name == names[index] && ValidProviderReceipt(receipt, profile)
    requires forall i :: 0 <= i < index ==> now.At(names[i]) == before.At(names[i])
    requires Complete(now.At(names[index]), Plugins(profile), source)
    ensures Underway(base, now, targets[index := targets[index].(receipt := receipt)], index + 1, names, profile,
                     source)
  {
    hide Accounts, Complete, ValidProviderReceipt, PlannedTarget, Usable, AccountsForAll;
    var next := targets[index := targets[index].(receipt := receipt)];
    assert Receipts(next[..index + 1]) == Receipts(targets[..index]) + [receipt];
  }

  /** Activates the providers in order; `receipts` claims what was done, and what was attempted. */
  method ActivateAll(host: Host, planned: seq<Target>, names: seq<Name>, profile: Profile, source: string,
                     ghost base: Inventories)
    returns (outcome: Outcome, receipts: seq<ProviderReceipt>)
    requires source != "" && Normalized(names)
    requires Underway(base, host.inventories, planned, 0, names, profile, source)
    modifies host`inventories
    ensures Claims(base, host.inventories, receipts, names, profile, source)
    ensures outcome.Done? ==> |receipts| == |names|
    ensures host.reliable ==> outcome.Done?
    ensures outcome.Done? ==> forall i :: 0 <= i < |names| ==>
      Complete(host.inventories.At(names[i]), Plugins(profile), source)
  {
    hide AccountsForAll;
    var targets := planned;
    receipts := [];
    outcome := Done;
    for index := 0 to |names|
      invariant outcome.Done? && |targets| == |names| && receipts == Receipts(targets[..index])
      invariant Underway(base, host.inventories, targets, index, names, profile, source)
      invariant index > 0 ==> Claims(base, host.inventories, receipts, names, profile, source)
    {
      var attempted, receipt;
      outcome, attempted, receipt := ActivateAlone(host, targets, index, names, profile, source, base);
      ghost var done := receipts;
      targets := targets[index := targets[index].(receipt := receipt)];
      if !outcome.Done? {
        receipts := CandidateReceipts(targets, index, attempted);
        assert receipts == done + [Attempted(receipt, attempted)];
        return;
      }
      receipts := receipts + [receipt];
      assert receipts == Receipts(targets[..index + 1]);
    }
  }

  ghost predicate AcceptableAlone(inventories: Inventories, options: Options) {
    var names := NormalizeProviders(options.providers);
    names.Some? && forall n :: n in names.value ==> Usable(inventories.At(n), Plugins(options.profile), options.source)
  }

  /** What a run has left behind without a receipt: only what the receipts it held at the end account for. */
  ghost predicate Unrecorded(base: Inventories, now: Inventories, options: Options) {
    var names := NormalizeProviders(options.providers);
    names.Some? && exists receipts :: Claims(base, now, receipts, names.value, options.profile, options.source)
  }

  lemma StillUnrecorded(base: Inventories, now: Inventories, receipts: seq<ProviderReceipt>, names: seq<Name>,
                        options: Options)
    requires NormalizeProviders(options.providers) == Some(names)
    requires AccountsForAll(base, now, receipts, options.source)
    requires forall r :: r in receipts ==> ValidProviderReceipt(r, options.profile)
    requires receipts != [] && |receipts| <= |names| && Names(receipts) == names[..|receipts|]
    ensures Unrecorded(base, now, options)
  {
    assert Claims(base, now, receipts, names, options.profile, options.source);
  }

  /**
   Initialization without a deployment.  Nothing is written ahead here, so a stopped run is not
   accounted for; a failed one either leaves every manager as it found it or says what is left.
   */
  method InitializeProvidersOnly(host: Host, options: Options) returns (result: InitResult)
    requires options.source != "" && options.installationId != ""
    modifies host
    ensures result.Rejected? || result.AlreadyInitialized? || result.RolledBack? ==>
      host.inventories == old(host.inventories) && host.persisted == old(host.persisted)
    ensures result.AlreadyInitialized? ==> host.persisted == Some(result.receipt)
    ensures result.Initialized? ==>
      && host.persisted == Some(result.receipt)
      && Fulfilled(old(host.inventories), host.inventories, result.receipt, options.source)
      && OwnershipInvariant(old(host.inventories), host.inventories, host.persisted, options.source)
    ensures result.CleanupIncomplete? ==>
      && host.persisted.Some? && host.persisted.value.phase.PhaseManualCleanup?
      && OwnershipInvariant(old(host.inventories), host.inventories, host.persisted, options.source)
    ensures !result.RemoteFailed? && (host.reliable ==> !result.NotWritten? && !result.InitStopped?)
    ensures result.NotWritten? || result.InitStopped? ==> old(host.persisted).None?
    ensures result.NotWritten? ==> host.persisted.None?
    ensures result.NotWritten? || (result.InitStopped? && host.persisted.None?) ==>
      Unrecorded(old(host.inventories), host.inventories, options)
    ensures result.InitStopped? && host.persisted.Some? ==>
      OwnershipInvariant(old(host.inventories), host.inventories, host.persisted, options.source)
    ensures result.Initialized? || result.CleanupIncomplete? ==> old(host.persisted).None?
    ensures host.reliable && old(host.persisted).None? && old(AcceptableAlone(host.inventories, options)) ==>
      result.Initialized? && result.receipt.installationId == options.installationId
  {
    hide OwnershipInvariant, Fulfilled, Accounts, Normalized;
    ghost var base := host.inventories;
    var normalized := NormalizeProviders(options.providers);
    var existing := host.ReadReceipt();
    if normalized.None? || existing.Err? {
      return Rejected;
    }
    var names := normalized.value;
    if existing.value.Some? {
      var receipt := existing.value.value;
      if receipt.phase.PhaseManualCleanup? || receipt.installationId != options.installationId
         || receipt.profile != options.profile || Names(receipt.providers) != names {
        return Rejected;
      }
      var matches := VerifyReceipt(host, receipt, options.source);
      return if matches then AlreadyInitialized(receipt) else Rejected;
    }
    var planned := PrepareProviderTargets(host, Plugins(options.profile), names, options.source);
    if planned.None? {
      return Rejected;
    }
    NormalizedIsDistinct(names);
    var blank := Receipt(options.installationId, false, "", options.profile, None, false, PhaseInitialized, []);
    var outcome, receipts := ActivateAll(host, planned.value, names, options.profile, options.source, base);
    if outcome.Stopped? {
      return InitStopped;
    }
    var receipt := blank.(providers := receipts);
    if outcome.Failed? {
      result := FailedInitialization(host, receipt, options.source, base);
      if !result.RolledBack? {
        StillUnrecorded(base, host.inventories, receipts, names, options);
      }
      return;
    }
    assert forall i :: 0 <= i < |receipts| ==> Names(receipts)[i] == names[i];
    var matches := VerifyReceipt(host, receipt, options.source);
    if matches {
      CompleteIsFulfilled(base, host.inventories, receipt, options.source);
      outcome := host.WriteReceipt(receipt);
    }
    if !matches || outcome.Failed? {
      result := FailedInitialization(host, receipt, options.source, base);
      if !result.RolledBack? {
        StillUnrecorded(base, host.inventories, receipts, names, options);
      }
      return;
    }
    result := if outcome.Done? then Initialized(receipt) else InitStopped;
  }

  // ---------------------------------------------------------------- uninitialize

  datatype CleaningResult = Cleaned(retained: bool) | NotCleaned | CleaningStopped

  /** Removes what one receipt owns, reading the inventory before each removal and after the last. */
  method CleanProvider(host: Host, item: ProviderReceipt, source: string) returns (result: CleaningResult)
    modifies host`inventories
    ensures forall n: Name :: n != item.name ==> host.inventories.At(n) == old(host.inventories).At(n)
    ensures Shrunk(old(host.inventories).At(item.name), host.inventories.At(item.name), item)
    ensures result.Cleaned? ==> host.inventories.At(item.name) == Stripped(old(host.inventories).At(item.name), item)
    ensures result.Cleaned? ==>
      (result.retained <==> !item.marketplaceAdded && host.inventories.At(item.name).marketplace.Some?)
    ensures host.reliable && !ForeignMarketplace(old(host.inventories).At(item.name), source) ==> result.Cleaned?
  {
    ghost var before := host.inventories.At(item.name);
    var index := |item.addedPlugins|;
    while index > 0
      invariant 0 <= index <= |item.addedPlugins|
      invariant forall n: Name :: n != item.name ==> host.inventories.At(n) == old(host.inventories).At(n)
      invariant Shrunk(before, host.inventories.At(item.name), item)
      invariant host.reliable ==> NonePresent(item.addedPlugins, index, host.inventories.At(item.name))
      invariant host.inventories.At(item.name).marketplace == before.marketplace
    {
      index := index - 1;
      var inventory := host.Inspect(item.name);
      if inventory.None? || ForeignMarketplace(inventory.value, source) {
        return NotCleaned;
      }
      if item.addedPlugins[index] in inventory.value.plugins {
        var outcome := host.RemovePlugin(item.name, item.addedPlugins[index], true);
        if !outcome.Done? {
          return if outcome.Stopped? then CleaningStopped else NotCleaned;
        }
      }
    }
    var inventory := host.Inspect(item.name);
    if inventory.None? || ForeignMarketplace(inventory.value, source) {
      return NotCleaned;
    }
    if item.marketplaceAdded && inventory.value.marketplace.Some? {
      var outcome := host.RemoveMarketplace(item.name, true);
      if !outcome.Done? {
        return if outcome.Stopped? then CleaningStopped else NotCleaned;
      }
    }
    inventory := host.Inspect(item.name);
    if inventory.None? || ForeignMarketplace(inventory.value, source) {
      return NotCleaned;
    }
    if item.marketplaceAdded && inventory.value.marketplace.Some? {
      return NotCleaned;
    }
    for k := 0 to |item.addedPlugins|
      invariant forall j :: 0 <= j < k ==> item.addedPlugins[j] !in inventory.value.plugins
    {
      if item.addedPlugins[k] in inventory.value.plugins {
        return NotCleaned;
      }
    }
    assert host.inventories.At(item.name).plugins == Stripped(before, item).plugins;
    result := Cleaned(!item.marketplaceAdded && inventory.value.marketplace.Some?);
  }

  /** Cleanup goes from the last provider to the first and leaves each one clean before the next,
      so the order in which providers were completed stays visible to a resumed run. */
  lemma CleaningKeepsInvariant(base: Inventories, before: Inventories, now: Inventories, receipt: Receipt, index: nat,
                               source: string)
    requires OwnershipInvariant(base, before, Some(receipt), source)
    requires index < |receipt.providers|
    requires forall n: Name :: n != receipt.providers[index].name ==> now.At(n) == before.At(n)
    requires Shrunk(before.At(receipt.providers[index].name), now.At(receipt.providers[index].name),
                    receipt.providers[index])
    requires forall j :: index < j < |receipt.providers| ==>
      before.At(receipt.providers[j].name) == base.At(receipt.providers[j].name)
    ensures OwnershipInvariant(base, now, Some(receipt), source)
    ensures forall j :: index < j < |receipt.providers| ==>
      now.At(receipt.providers[j].name) == base.At(receipt.providers[j].name)
  {
    var names := Names(receipt.providers);
    NormalizedIsDistinct(names);
    forall i | 0 <= i < |names| && i != index
      ensures now.At(receipt.providers[i].name) == before.At(receipt.providers[i].name)
    {
      assert names[i] != names[index];
    }
    var item := receipt.providers[index];
    ShrunkAccounts(base.At(item.name), before.At(item.name), now.At(item.name), item, source);
    forall n: Name | n !in names ensures now.At(n) == base.At(n) {
      assert names[index] == item.name;
    }
    assert AccountsForAll(base, now, receipt.providers, source);
  }

  /** The receipts whose Marketplace was there before AGX, last provider first. */
  function RetainedNames(base: Inventories, items: seq<ProviderReceipt>): seq<Name> {
    if items == [] then []
    else
      var last := items[|items| - 1];
      (if base.At(last.name).marketplace.Some? then [last.name] else []) + RetainedNames(base, items[..|items| - 1])
  }

  lemma RetainedStep(base: Inventories, items: seq<ProviderReceipt>, index: nat)
    requires index < |items|
    ensures RetainedNames(base, items[..index + 1])
         == (if base.At(items[index].name).marketplace.Some? then [items[index].name] else [])
            + RetainedNames(base, items[..index])
  {
    assert items[..index + 1][..index] == items[..index];
  }

  /** The providers from `index` on are clean, and those before it as they were. */
  ghost predicate CleanedFrom(base: Inventories, first: Inventories, now: Inventories, receipt: Receipt, index: nat,
                              retained: seq<Name>)
  {
    var items := receipt.providers;
    && index <= |items|
    && (forall j :: index <= j < |items| ==> now.At(items[j].name) == base.At(items[j].name))
    && (forall j :: 0 <= j < index ==> now.At(items[j].name) == first.At(items[j].name))
    && retained + RetainedNames(base, items[..index]) == RetainedNames(base, items)
    && (retained == [] ==> forall j :: index <= j < |items| ==> items[j].marketplaceAdded)
  }

  lemma CleanedOneMore(base: Inventories, first: Inventories, before: Inventories, now: Inventories, receipt: Receipt,
                       index: nat, retained: seq<Name>, kept: bool)
    requires CleanedFrom(base, first, before, receipt, index + 1, retained)
    requires forall i, j :: 0 <= i < j < |receipt.providers| ==> receipt.providers[i].name != receipt.providers[j].name
    requires var item := receipt.providers[index];
             && (forall n: Name :: n != item.name ==> now.At(n) == before.At(n))
             && now.At(item.name) == base.At(item.name)
             && (item.marketplaceAdded <==> base.At(item.name).marketplace.None?)
             && (kept <==> !item.marketplaceAdded)
    ensures CleanedFrom(base, first, now, receipt, index,
                        if kept then retained + [receipt.providers[index].name] else retained)
  {
    hide RetainedNames;
    RetainedStep(base, receipt.providers, index);
  }

  lemma NothingCleaned(base: Inventories, now: Inventories, receipt: Receipt)
    ensures CleanedFrom(base, now, now, receipt, |receipt.providers|, [])
  {
    assert receipt.providers[..|receipt.providers|] == receipt.providers;
  }

  /** Cleans every provider, last first; `retained` lists the Marketplaces that were not AGX's. */
  method CleanAll(host: Host, receipt: Receipt, source: string, ghost base: Inventories)
    returns (outcome: Outcome, retained: seq<Name>)
    requires OwnershipInvariant(base, host.inventories, Some(receipt), source)
    modifies host`inventories
    ensures OwnershipInvariant(base, host.inventories, Some(receipt), source)
    ensures outcome.Done? ==> host.inventories == base && retained == RetainedNames(base, receipt.providers)
    ensures outcome.Done? && retained == [] ==> forall j :: 0 <= j < |receipt.providers| ==>
      receipt.providers[j].marketplaceAdded
    ensures host.reliable && NoneForeign(old(host.inventories), receipt.providers, source) ==> outcome.Done?
  {
    hide OwnershipInvariant, Stripped, Shrunk, RetainedNames;
    retained := [];
    var index := |receipt.providers|;
    ghost var first := host.inventories;
    NothingCleaned(base, first, receipt);
    while index > 0
      invariant 0 <= index <= |receipt.providers|
      invariant OwnershipInvariant(base, host.inventories, Some(receipt), source)
      invariant CleanedFrom(base, first, host.inventories, receipt, index, retained)
    {
      index := index - 1;
      var item := receipt.providers[index];
      ghost var before := host.inventories;
      NamesAreDistinct(base, before, receipt, source);
      var cleaning := CleanProvider(host, item, source);
      CleaningKeepsInvariant(base, before, host.inventories, receipt, index, source);
      if !cleaning.Cleaned? {
        return if cleaning.CleaningStopped? then Stopped else Failed, retained;
      }
      CleanedIsRestored(base, before, receipt, index, source);
      CleanedOneMore(base, first, before, host.inventories, receipt, index, retained, cleaning.retained);
      if cleaning.retained {
        retained := retained + [item.name];
      }
    }
    NoneIsLeft(base, receipt.providers);
    AllClean(base, host.inventories, receipt, source);
    outcome := Done;
  }

  lemma NoneIsLeft(base: Inventories, items: seq<ProviderReceipt>)
    ensures RetainedNames(base, items[..0]) == []
  {}

  ghost predicate MayUninitialize(inventories: Inventories, persisted: Option<Receipt>, installationId: string,
                                  source: string) {
    && persisted.Some? && persisted.value.installationId == installationId
    && NoneForeign(inventories, persisted.value.providers, source)
  }

  /** Removes exactly what the receipt claims, and the receipt with it unless pre-existing Marketplaces
      still refer to the Installation. */
  method Uninitialize(host: Host, installationId: string, source: string, ghost base: Inventories)
    returns (result: UninitResult)
    requires OwnershipInvariant(base, host.inventories, host.persisted, source)
    modifies host
    ensures OwnershipInvariant(base, host.inventories, host.persisted, source)
    ensures result.NothingToDo? ==> host.inventories == old(host.inventories) && host.persisted == old(host.persisted)
    ensures result.Removed? ==> host.inventories == base && host.persisted.None?
    ensures result.Removed? ==>
      old(host.persisted).Some? && forall i :: 0 <= i < |old(host.persisted).value.providers| ==>
        old(host.persisted).value.providers[i].marketplaceAdded
    ensures result.Retained? ==>
      && host.inventories == base && host.persisted == old(host.persisted) && host.persisted.Some?
      && result.marketplaces == RetainedNames(base, host.persisted.value.providers)
      && result.marketplaces != []
    ensures host.persisted.Some? ==> host.persisted == old(host.persisted)
    ensures old(host.persisted.Some? && !NoneForeign(host.inventories, host.persisted.value.providers, source)) ==>
      && (result.NothingToDo? || result.Refused?)
      && host.inventories == old(host.inventories) && host.persisted == old(host.persisted)
    ensures host.reliable && old(MayUninitialize(host.inventories, host.persisted, installationId, source)) ==>
      result.Removed? || result.Retained?
  {
    var existing := host.ReadReceipt();
    if existing.Err? || existing.value.None? {
      return NothingToDo;
    }
    var receipt := existing.value.value;
    if receipt.installationId != installationId {
      return Refused;
    }
    for index := 0 to |receipt.providers|
      invariant host.inventories == old(host.inventories) && host.persisted == old(host.persisted)
      invariant forall i :: 0 <= i < index ==>
        !ForeignMarketplace(host.inventories.At(receipt.providers[i].name), source)
    {
      var inventory := host.Inspect(receipt.providers[index].name);
      if inventory.None? || ForeignMarketplace(inventory.value, source) {
        return Refused;
      }
    }
    var cleaning, retained := CleanAll(host, receipt, source, base);
    if !cleaning.Done? {
      return if cleaning.Stopped? then UninitStopped else Refused;
    }
    if retained != [] {
      return Retained(retained);
    }
    var outcome := host.RemoveReceipt();
    result := if outcome.Done? then Removed else if outcome.Stopped? then UninitStopped else Refused;
  }

  lemma NamesAreDistinct(base: Inventories, now: Inventories, receipt: Receipt, source: string)
    requires OwnershipInvariant(base, now, Some(receipt), source)
    ensures forall i, j :: 0 <= i < j < |receipt.providers| ==> receipt.providers[i].name != receipt.providers[j].name
  {}

  lemma CleanedIsRestored(base: Inventories, before: Inventories, receipt: Receipt, index: nat, source: string)
    requires OwnershipInvariant(base, before, Some(receipt), source) && index < |receipt.providers|
    ensures var item := receipt.providers[index];
            && Stripped(before.At(item.name), item) == base.At(item.name)
            && (item.marketplaceAdded <==> base.At(item.name).marketplace.None?)
  {}

  lemma AllClean(base: Inventories, now: Inventories, receipt: Receipt, source: string)
    requires OwnershipInvariant(base, now, Some(receipt), source)
    requires forall j :: 0 <= j < |receipt.providers| ==>
      now.At(receipt.providers[j].name) == base.At(receipt.providers[j].name)
    ensures now == base
  {
    var items := receipt.providers;
    forall n: Name ensures now.At(n) == base.At(n) {
      if n in Names(items) {
        var j :| 0 <= j < |items| && Names(items)[j] == n;
      }
    }
    InventoriesEqual(now, base);
  }

  // ---------------------------------------------------------------- histories

  /** `remote` is what the read-only checks of repositories and Project say in that run. */
  datatype Operation =
    | RunInit(options: Options, remote: bool)
    | RunAlone(options: Options)
    | RunUninit(installationId: string)

  predicate WellMeant(op: Operation, source: string) {
    !op.RunUninit? ==> op.options.source == source && op.options.installationId != ""
  }

  /** Every provider-only run got as far as its receipt, or left nothing to record. */
  ghost predicate AllRecorded(operations: seq<Operation>, outcomes: seq<Option<InitResult>>) {
    && |outcomes| == |operations|
    && forall k :: 0 <= k < |operations| && operations[k].RunAlone? ==> EndedOnFile(outcomes[k])
  }

  predicate EndedOnFile(outcome: Option<InitResult>) {
    outcome.Some? && !outcome.value.NotWritten? && !outcome.value.InitStopped?
  }

  /** Any number of runs, of every kind, failing and stopping anywhere: the receipt file accounts for the
      managers after every one of them, relative to the state after the last provider-only run that ended
      before its receipt was there.  If there is none, that is the first state. */
  method RunHistory(host: Host, operations: seq<Operation>, source: string)
    returns (ghost base: Inventories, outcomes: seq<Option<InitResult>>)
    requires source != "" && host.persisted.None?
    requires forall op :: op in operations ==> WellMeant(op, source)
    modifies host
    ensures OwnershipInvariant(base, host.inventories, host.persisted, source)
    ensures |outcomes| == |operations|
    ensures AllRecorded(operations, outcomes) || host.reliable ==> base == old(host.inventories)
  {
    hide OwnershipInvariant;
    base, outcomes := host.inventories, [];
    assert OwnershipInvariant(base, base, None, source) by { NothingIsOwned(base, source); }
    for k := 0 to |operations|
      invariant OwnershipInvariant(base, host.inventories, host.persisted, source)
      invariant |outcomes| == k
      invariant AllRecorded(operations[..k], outcomes) || host.reliable ==> base == old(host.inventories)
    {
      assert operations[k] in operations;
      ghost var before := outcomes;
      match operations[k] {
        case RunInit(options, remote) =>
          var result := InitializeDeployment(host, options, remote, base);
          outcomes := outcomes + [Some(result)];
        case RunAlone(options) =>
          FirstRunStartsHere(base, host.inventories, host.persisted, source);
          var result := InitializeProvidersOnly(host, options);
          outcomes := outcomes + [Some(result)];
          if result.NotWritten? || (result.InitStopped? && host.persisted.None?) {
            base := host.inventories;
            NothingIsOwned(base, source);
          }
        case RunUninit(installationId) =>
          var _ := Uninitialize(host, installationId, source, base);
          outcomes := outcomes + [None];
      }
      RecordedSoFar(operations, k, before, outcomes);
    }
    assert operations[..|operations|] == operations;
  }

  lemma NothingIsOwned(now: Inventories, source: string)
    ensures OwnershipInvariant(now, now, None, source)
  {}

  /** Where there is no receipt there is nothing to account for. */
  lemma FirstRunStartsHere(base: Inventories, now: Inventories, persisted: Option<Receipt>, source: string)
    requires OwnershipInvariant(base, now, persisted, source)
    ensures persisted.None? ==> now == base
  {}

  lemma RecordedSoFar(operations: seq<Operation>, k: nat, before: seq<Option<InitResult>>,
                      after: seq<Option<InitResult>>)
    requires k < |operations| && |before| == k && |after| == k + 1 && after[..k] == before
    ensures AllRecorded(operations[..k + 1], after) ==>
      AllRecorded(operations[..k], before) && (operations[k].RunAlone? ==> EndedOnFile(after[k]))
  {
    assert forall i :: 0 <= i < k ==> before[i] == after[i];
    assert operations[..k + 1][k] == operations[k];
    assert forall i :: 0 <= i < k ==> operations[..k + 1][i] == operations[..k][i];
  }

  /** After any history, an uninitialize that succeeds puts everything back, and one that only retains
      pre-existing Marketplaces has removed everything else. */
  method HistoryThenUninitialize(host: Host, operations: seq<Operation>, installationId: string, source: string)
    returns (result: UninitResult, ghost base: Inventories, outcomes: seq<Option<InitResult>>)
    requires source != "" && host.persisted.None?
    requires forall op :: op in operations ==> WellMeant(op, source)
    modifies host
    ensures result.Removed? || result.Retained? ==> host.inventories == base
    ensures |outcomes| == |operations|
    ensures AllRecorded(operations, outcomes) || host.reliable ==> base == old(host.inventories)
  {
    base, outcomes := RunHistory(host, operations, source);
    result := Uninitialize(host, installationId, source, base);
  }

  /** Initialize without a deployment, then uninitialize as often as it takes.  Where nothing fails,
      and no Marketplace was there before, once is enough. */
  method InitializeThenUninitialize(host: Host, options: Options, attempts: nat) returns (removed: bool)
    requires options.source != "" && options.installationId != "" && host.persisted.None?
    modifies host
    ensures removed ==> host.inventories == old(host.inventories) && host.persisted.None?
    ensures host.reliable && attempts > 0 ==>
      old(AcceptableAlone(host.inventories, options) && NoMarketplace(host.inventories)) ==> removed
  {
    ghost var base := host.inventories;
    removed := false;
    var initialized := InitializeProvidersOnly(host, options);
    if initialized.Initialized? {
      FulfilledIsNotForeign(base, host.inventories, initialized.receipt, options.source);
    }
    if initialized.Initialized? || initialized.CleanupIncomplete? {
      for k := 0 to attempts
        invariant OwnershipInvariant(base, host.inventories, host.persisted, options.source)
        invariant !removed
        invariant initialized.Initialized? && k == 0 && host.reliable ==>
          initialized.receipt.installationId == options.installationId ==>
          MayUninitialize(host.inventories, host.persisted, options.installationId, options.source)
        invariant host.reliable && AcceptableAlone(base, options) && NoMarketplace(base) ==> k == 0
      {
        var result := Uninitialize(host, options.installationId, options.source, base);
        if result.Removed? {
          return true;
        }
        if result.Retained? {
          RetainedWereThere(base, host.persisted.value.providers);
        }
      }
    }
  }

  ghost predicate NoMarketplace(inventories: Inventories) {
    forall n: Name :: inventories.At(n).marketplace.None?
  }

  lemma FulfilledIsNotForeign(base: Inventories, now: Inventories, receipt: Receipt, source: string)
    requires source != "" && Fulfilled(base, now, receipt, source)
    ensures NoneForeign(now, receipt.providers, source)
  {}

  lemma {:induction false} RetainedWereThere(base: Inventories, items: seq<ProviderReceipt>)
    ensures RetainedNames(base, items) != [] ==> !NoMarketplace(base)
    decreases |items|
  {
    if items != [] {
      RetainedWereThere(base, items[..|items| - 1]);
    }
  }

  /** Where nothing fails, a run does all there is to do: another one changes nothing. */
  method InitializeTwice(host: Host, options: Options) returns (first: InitResult, second: InitResult)
    requires options.source != "" && options.installationId != "" && host.reliable
    requires host.persisted.None? && Acceptable(host.inventories, host.persisted, options)
    modifies host
    ensures first.Initialized? && second == AlreadyInitialized(first.receipt)
    ensures host.persisted == Some(first.receipt)
      && Fulfilled(old(host.inventories), host.inventories, first.receipt, options.source)
  {
    ghost var base := host.inventories;
    first := InitializeDeployment(host, options, true, base);
    FulfilledIsAcceptable(base, host.inventories, first.receipt, options);
    second := InitializeDeployment(host, options, true, base);
  }

  lemma FulfilledIsAcceptable(base: Inventories, now: Inventories, receipt: Receipt, options: Options)
    requires options.source != "" && Fulfilled(base, now, receipt, options.source) && ValidReceipt(receipt)
    requires NormalizeProviders(options.providers) == Some(Names(receipt.providers))
    requires SameDeployment(receipt, options, Names(receipt.providers))
    ensures Acceptable(now, Some(receipt), options) && AllComplete(now, receipt, options.source)
  {}
}
