/**
 What AGX owns of the two plugin managers, and what an initialization receipt is worth.

 `base` is, throughout, the state the managers were in before the first run.
 */
module Ownership {
  import opened Wrappers
  import opened Providers

  /** The part of a manager's state that `item` claims, taken away. */
  function Stripped(s: ProviderState, item: ProviderReceipt): ProviderState {
    ProviderState(
      if item.marketplaceAdded then None else s.marketplace,
      s.plugins - (set p | p in item.addedPlugins))
  }

  /** `after` lacks nothing that `before` had, except what `item` claims, and has nothing new. */
  ghost predicate Shrunk(before: ProviderState, after: ProviderState, item: ProviderReceipt) {
    && (after.marketplace == before.marketplace || (item.marketplaceAdded && after.marketplace.None?))
    && (forall p :: p in after.plugins ==> p in before.plugins && after.plugins[p] == before.plugins[p])
    && (forall p :: p in before.plugins ==> p in after.plugins || p in item.addedPlugins)
  }

  /** `item` accounts for the whole difference between `base` and `now`, and claims nothing that
      was there before. */
  ghost predicate Accounts(base: ProviderState, now: ProviderState, item: ProviderReceipt, source: string) {
    && (item.marketplaceAdded <==> base.marketplace.None?)
    && (forall p :: p in item.addedPlugins ==> p !in base.plugins)
    && (now.marketplace == base.marketplace || (item.marketplaceAdded && now.marketplace == Some(source)))
    && (forall p :: p in base.plugins ==> p in now.plugins && now.plugins[p] == base.plugins[p])
    && (forall p :: p in now.plugins ==> p in base.plugins || (p in item.addedPlugins && now.plugins[p].enabled))
  }

  predicate Complete(s: ProviderState, selected: seq<string>, source: string) {
    && s.marketplace == Some(source)
    && forall p :: p in selected ==> p in s.plugins && s.plugins[p].enabled
  }

  /** A provider differs from its starting state only once every provider before it is complete. */
  ghost predicate PrefixComplete(base: Inventories, now: Inventories, receipt: Receipt, source: string) {
    forall i, j :: 0 <= i < j < |receipt.providers|
      && now.At(receipt.providers[j].name) != base.At(receipt.providers[j].name)
      ==> Complete(now.At(receipt.providers[i].name), Plugins(receipt.profile), source)
  }

  ghost predicate AccountsForAll(base: Inventories, now: Inventories, items: seq<ProviderReceipt>, source: string) {
    && (forall n: Name :: n !in Names(items) ==> now.At(n) == base.At(n))
    && (forall i :: 0 <= i < |items| ==> Accounts(base.At(items[i].name), now.At(items[i].name), items[i], source))
  }

  /** What the receipt file is worth at every moment a run can stop. */
  ghost predicate OwnershipInvariant(base: Inventories, now: Inventories, persisted: Option<Receipt>, source: string) {
    match persisted
    case None => now == base
    case Some(receipt) =>
      && ValidReceipt(receipt)
      && AccountsForAll(base, now, receipt.providers, source)
      && (!receipt.phase.PhaseManualCleanup? ==> PrefixComplete(base, now, receipt, source))
  }

  /** Taking away what an honest receipt claims gives back the starting state, exactly. */
  lemma StrippedRestores(base: ProviderState, now: ProviderState, item: ProviderReceipt, source: string)
    requires Accounts(base, now, item, source)
    ensures Stripped(now, item) == base
  {}

  lemma ShrunkAccounts(base: ProviderState, before: ProviderState, after: ProviderState, item: ProviderReceipt,
                       source: string)
    requires Accounts(base, before, item, source)
    requires Shrunk(before, after, item)
    ensures Accounts(base, after, item, source)
    ensures before == base ==> after == base
  {}

  lemma InventoriesEqual(a: Inventories, b: Inventories)
    requires forall n: Name :: a.At(n) == b.At(n)
    ensures a == b
  {
    assert a.At(Codex) == b.At(Codex) && a.At(Claude) == b.At(Claude);
  }

  /** Once every owned provider is stripped, the managers are back where they started. */
  lemma AllStripped(base: Inventories, before: Inventories, now: Inventories, items: seq<ProviderReceipt>,
                    source: string)
    requires AccountsForAll(base, before, items, source)
    requires forall n: Name :: n !in Names(items) ==> now.At(n) == before.At(n)
    requires forall i :: 0 <= i < |items| ==> now.At(items[i].name) == Stripped(before.At(items[i].name), items[i])
    ensures now == base
  {
    forall i | 0 <= i < |items| ensures now.At(items[i].name) == base.At(items[i].name) {
      StrippedRestores(base.At(items[i].name), before.At(items[i].name), items[i], source);
    }
    forall n: Name ensures now.At(n) == base.At(n) {
      if n in Names(items) {
        var i :| 0 <= i < |items| && Names(items)[i] == n;
      }
    }
    InventoriesEqual(now, base);
  }

  /** On a complete provider the receipt claims exactly what was missing at the start. */
  lemma OwnershipIsExact(base: ProviderState, now: ProviderState, item: ProviderReceipt, profile: Profile,
                         source: string)
    requires ValidProviderReceipt(item, profile)
    requires Accounts(base, now, item, source)
    requires Complete(now, Plugins(profile), source)
    ensures item.marketplaceAdded <==> base.marketplace.None?
    ensures forall p :: p in item.addedPlugins <==> p in Plugins(profile) && p !in base.plugins
  {}

  /** Forgetting the providers after the first `count` loses nothing exactly when they are still as
      they were. */
  lemma TruncationIsSafeExactlyWhenUntouched(base: Inventories, now: Inventories, items: seq<ProviderReceipt>,
                                             count: nat, source: string)
    requires AccountsForAll(base, now, items, source) && Distinct(Names(items)) && count <= |items|
    ensures AccountsForAll(base, now, items[..count], source)
       <==> forall j :: count <= j < |items| ==> now.At(items[j].name) == base.At(items[j].name)
  {}
}
