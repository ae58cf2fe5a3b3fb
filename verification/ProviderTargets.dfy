/** Planning a run: what each provider lacks, and what the run therefore claims to own. */
module ProviderTargets {
  import opened Wrappers
  import opened Providers

  /** What one run plans for one provider. */
  datatype Target = Target(name: Name, before: ProviderState, receipt: ProviderReceipt, toInstall: seq<string>)

  /** The selected plugins that an inventory lacks, in selection order. */
  function MissingPlugins(selected: seq<string>, s: ProviderState): (missing: seq<string>)
    ensures forall p :: p in missing <==> p in selected && p !in s.plugins
  {
    if selected == [] then []
    else
      var rest := MissingPlugins(selected[1..], s);
      if selected[0] in s.plugins then rest else [selected[0]] + rest
  }

  predicate Usable(s: ProviderState, selected: seq<string>, source: string) {
    && !ForeignMarketplace(s, source)
    && forall p :: p in selected && p in s.plugins ==> s.plugins[p].enabled
  }

  function PlannedTarget(name: Name, s: ProviderState, selected: seq<string>): Target {
    Target(name, s, ProviderReceipt(name, s.marketplace.None?, selected, []), MissingPlugins(selected, s))
  }

  /** What has to be installed, unless a selected plugin is there and disabled. */
  method PlanInstallations(selected: seq<string>, s: ProviderState) returns (toInstall: Option<seq<string>>)
    ensures toInstall.Some? <==> forall p :: p in selected && p in s.plugins ==> s.plugins[p].enabled
    ensures toInstall.Some? ==> toInstall.value == MissingPlugins(selected, s)
  {
    var missing: seq<string> := [];
    for k := 0 to |selected|
      invariant missing == MissingPlugins(selected[..k], s)
      invariant forall p :: p in selected[..k] && p in s.plugins ==> s.plugins[p].enabled
    {
      MissingPluginsSnoc(selected[..k], selected[k], s);
      assert selected[..k + 1] == selected[..k] + [selected[k]];
      if selected[k] in s.plugins && !s.plugins[selected[k]].enabled {
        return None;
      }
      if selected[k] !in s.plugins {
        missing := missing + [selected[k]];
      }
    }
    assert selected[..|selected|] == selected;
    toInstall := Some(missing);
  }

  /** Read-only.  A foreign source, a disabled plugin or an unreadable inventory stops it. */
  method PrepareProviderTargets(host: Host, selected: seq<string>, names: seq<Name>, source: string)
    returns (planned: Option<seq<Target>>)
    ensures planned.Some? ==> |planned.value| == |names|
    ensures planned.Some? ==> forall i :: 0 <= i < |names| ==>
      && planned.value[i] == PlannedTarget(names[i], host.inventories.At(names[i]), selected)
      && Usable(host.inventories.At(names[i]), selected, source)
    ensures (exists n :: n in names && !Usable(host.inventories.At(n), selected, source)) ==> planned.None?
    ensures host.reliable && (forall n :: n in names ==> Usable(host.inventories.At(n), selected, source)) ==>
      planned.Some?
  {
    var targets: seq<Target> := [];
    for index := 0 to |names|
      invariant |targets| == index
      invariant forall i :: 0 <= i < index ==>
        && targets[i] == PlannedTarget(names[i], host.inventories.At(names[i]), selected)
        && Usable(host.inventories.At(names[i]), selected, source)
    {
      var inventory := host.Inspect(names[index]);
      if inventory.None? || ForeignMarketplace(inventory.value, source) {
        return None;
      }
      var toInstall := PlanInstallations(selected, inventory.value);
      if toInstall.None? {
        return None;
      }
      var receipt := ProviderReceipt(names[index], inventory.value.marketplace.None?, selected, []);
      targets := targets + [Target(names[index], inventory.value, receipt, toInstall.value)];
    }
    planned := Some(targets);
  }

  lemma {:induction false} MissingPluginsSnoc(selected: seq<string>, p: string, s: ProviderState)
    ensures MissingPlugins(selected + [p], s)
         == MissingPlugins(selected, s) + if p in s.plugins then [] else [p]
  {
    if selected == [] {
      assert selected + [p] == [p];
      assert [p][1..] == [];
    } else {
      assert (selected + [p])[1..] == selected[1..] + [p];
      MissingPluginsSnoc(selected[1..], p, s);
    }
  }

  /** The receipt an earlier run left for `name`, if it left one. */
  function Recorded(existing: seq<ProviderReceipt>, name: Name): (r: Option<ProviderReceipt>)
    ensures r.Some? ==> r.value in existing && r.value.name == name
    ensures r.None? ==> forall i :: 0 <= i < |existing| ==> existing[i].name != name
  {
    if existing == [] then None
    else
      var rest := Recorded(existing[1..], name);
      if rest.Some? then rest
      else if existing[0].name == name then Some(existing[0])
      else None
  }

  /** Earlier ownership survives a new plan. */
  method MergeProviderOwnership(targets: seq<Target>, existing: seq<ProviderReceipt>) returns (merged: seq<Target>)
    ensures |merged| == |targets|
    ensures forall i :: 0 <= i < |targets| ==>
      merged[i] == match Recorded(existing, targets[i].name)
                   case Some(item) => targets[i].(receipt := item)
                   case None => targets[i]
  {
    merged := targets;
    for index := 0 to |targets|
      invariant |merged| == |targets|
      invariant forall i :: index <= i < |targets| ==> merged[i] == targets[i]
      invariant forall i :: 0 <= i < index ==>
        merged[i] == match Recorded(existing, targets[i].name)
                     case Some(item) => targets[i].(receipt := item)
                     case None => targets[i]
    {
      var item := Recorded(existing, merged[index].name);
      if item.Some? {
        merged := merged[index := merged[index].(receipt := item.value)];
      }
    }
  }

  /** Appends what is not there yet, in order. */
  function AppendMissing(added: seq<string>, more: seq<string>): seq<string>
    decreases more
  {
    if more == [] then added
    else AppendMissing(if more[0] in added then added else added + [more[0]], more[1..])
  }

  lemma {:induction false} AppendMissingMembers(added: seq<string>, more: seq<string>)
    ensures forall p :: p in AppendMissing(added, more) <==> p in added || p in more
    ensures Distinct(added) ==> Distinct(AppendMissing(added, more))
    ensures (forall p :: p in more ==> p in added) ==> AppendMissing(added, more) == added
    decreases more
  {
    if more != [] {
      AppendMissingMembers(if more[0] in added then added else added + [more[0]], more[1..]);
    }
  }

  lemma {:induction false} AppendMissingSnoc(added: seq<string>, more: seq<string>, p: string)
    ensures AppendMissing(added, more + [p])
         == (var r := AppendMissing(added, more); if p in r then r else r + [p])
    decreases more
  {
    if more == [] {
      assert more + [p] == [p] && [p][1..] == [];
    } else {
      assert (more + [p])[1..] == more[1..] + [p];
      AppendMissingSnoc(if more[0] in added then added else added + [more[0]], more[1..], p);
    }
  }

  /** The receipt that owns everything the plan is about to add. */
  function Claimed(t: Target): ProviderReceipt {
    t.receipt.(addedPlugins := AppendMissing(t.receipt.addedPlugins, t.toInstall))
  }

  method Claim(t: Target) returns (receipt: ProviderReceipt)
    ensures receipt == Claimed(t)
  {
    receipt := t.receipt;
    for k := 0 to |t.toInstall|
      invariant receipt == t.receipt.(addedPlugins := AppendMissing(t.receipt.addedPlugins, t.toInstall[..k]))
    {
      AppendMissingSnoc(t.receipt.addedPlugins, t.toInstall[..k], t.toInstall[k]);
      assert t.toInstall[..k + 1] == t.toInstall[..k] + [t.toInstall[k]];
      if t.toInstall[k] !in receipt.addedPlugins {
        receipt := receipt.(addedPlugins := receipt.addedPlugins + [t.toInstall[k]]);
      }
    }
    assert t.toInstall[..|t.toInstall|] == t.toInstall;
  }

  method DeclareIntent(targets: seq<Target>) returns (declared: seq<Target>, receipts: seq<ProviderReceipt>)
    ensures |declared| == |receipts| == |targets|
    ensures forall i :: 0 <= i < |targets| ==>
      receipts[i] == Claimed(targets[i]) && declared[i] == targets[i].(receipt := receipts[i])
  {
    declared, receipts := targets, [];
    for index := 0 to |targets|
      invariant |declared| == |targets| && |receipts| == index
      invariant forall i :: 0 <= i < index ==>
        receipts[i] == Claimed(targets[i]) && declared[i] == targets[i].(receipt := receipts[i])
      invariant forall i :: index <= i < |targets| ==> declared[i] == targets[i]
    {
      var receipt := Claim(declared[index]);
      declared := declared[index := declared[index].(receipt := receipt)];
      receipts := receipts + [receipt];
    }
  }
}
