/** Retiring menus that the platform no longer has: each retired menu goes with
    everything below it, children before parents, one removal at a time. */
module MenuRetirement {
  import opened Options
  import opened Ordering
  import opened ParentGraph
  import opened Lookup
  import opened MenuGovernance

  const RETIRED_KEYS := {"org_permissions", "identity_permission_list", "runtime_operations", "system"}

  /** The menus of a store stand under their own, non-blank ids. */
  ghost predicate Keyed(menus: Menus) {
    forall id :: id in menus ==> id != "" && menus[id].id == id
  }

  /** `u` is `top` or one of its descendants. */
  ghost predicate Under(up: Parents, u: string, top: string) {
    exists n: nat :: Climb(up, u, n) == Some(top)
  }

  ghost predicate Retired(menus: Menus, id: string) {
    id in menus && menus[id].key in RETIRED_KEYS
  }

  /** Four keys are retired. */
  lemma RetiredMeans(menus: Menus, id: string)
    ensures Retired(menus, id) <==>
      id in menus && menus[id].key in {"org_permissions", "identity_permission_list", "runtime_operations", "system"}
  {
  }

  /** The retired menus and all their descendants. */
  ghost function Doomed(menus: Menus): set<string> {
    set u | u in menus && exists r :: Retired(menus, r) && Under(Links(menus), u, r)
  }

  /** When a menu was removed, each of its children had been removed before. */
  ghost predicate ChildrenFirst(up: Parents, log: seq<string>) {
    forall i, c :: 0 <= i < |log| && c in up && up[c] == log[i] ==> c in log[..i]
  }

  /** Where a retirement of the menus `all` stands: `removed` is what the log
      lists, without repeats, and the store holds the rest. */
  ghost predicate Standing(all: Menus, removed: set<string>, log: seq<string>, now: Menus) {
    && (forall id :: id in removed <==> id in log)
    && removed <= all.Keys && now == all - removed
    && Distinct(log) && ChildrenFirst(Links(all), log)
  }

  lemma RemoveOne(all: Menus, removed: set<string>, log: seq<string>, now: Menus, id: string)
    requires Standing(all, removed, log, now) && id in all && id !in removed
    requires forall c :: c in Links(all) && Links(all)[c] == id ==> c in removed
    ensures Standing(all, removed + {id}, log + [id], now - {id})
  {
    var up, next := Links(all), log + [id];
    assert next[..|log|] == log;
    forall i, c | 0 <= i < |next| && c in up && up[c] == next[i] ensures c in next[..i] {
      if i < |log| { assert next[..i] == log[..i]; }
    }
  }

  lemma StillThere(all: Menus, removed: set<string>, log: seq<string>, now: Menus, id: string)
    requires Standing(all, removed, log, now) && id in all && id !in removed
    ensures id in now
  {
  }

  /** No retired menu lies on a cycle of parents. */
  ghost predicate RetiredOffCycle(menus: Menus) {
    forall r :: Retired(menus, r) ==> !OnCycle(Links(menus), r)
  }

  lemma BelowChild(up: Parents, u: string, child: string)
    requires child in up && !OnCycle(up, up[child]) && Under(up, u, child)
    ensures Under(up, u, up[child]) && u != up[child]
  {
    var n: nat :| Climb(up, u, n) == Some(child);
    ClimbNext(up, u, n);
    assert Climb(up, u, n + 1) == Some(up[child]);
  }

  /** A cycle that a menu lies on passes through its parent. */
  lemma CyclePassesParent(up: Parents, u: string)
    requires OnCycle(up, u)
    ensures u in up && OnCycle(up, up[u])
  {
    var n: nat :| n >= 1 && Climb(up, u, n) == Some(u);
    ClimbNext(up, u, n);
    assert Climb(up, up[u], n) == Climb(up, u, n + 1) == Some(up[u]);
  }

  /** A menu and everything below it. */
  ghost function Subtree(all: Menus, id: string): set<string> {
    set u | u in all && Under(Links(all), u, id)
  }

  lemma ChildHasLess(all: Menus, child: string)
    requires Keyed(all) && child in Links(all) && Links(all)[child] in all && !OnCycle(Links(all), Links(all)[child])
    ensures Subtree(all, child) < Subtree(all, Links(all)[child]) && !OnCycle(Links(all), child)
  {
    var up := Links(all);
    var id := up[child];
    UnderItself(up, id);
    if OnCycle(up, child) { CyclePassesParent(up, child); }
    forall u | u in Subtree(all, child) ensures u in Subtree(all, id) && u != id { BelowChild(up, u, child); }
    assert id in Subtree(all, id) && id !in Subtree(all, child);
  }

  lemma UnderItself(up: Parents, u: string)
    ensures Under(up, u, u)
  {
    assert Climb(up, u, 0) == Some(u);
  }

  class Store {
    var menus: Menus
    var attempts: nat
    const faulty: nat -> bool     // which calls to the store fail

    constructor (menus: Menus, faulty: nat -> bool)
      ensures this.menus == menus && this.faulty == faulty && attempts == 0
    {
      this.menus, this.faulty, attempts := menus, faulty, 0;
    }

    method RemoveIdentityMenu(id: string) returns (ok: bool)
      modifies this
      ensures ok <==> !faulty(old(attempts)) && id in old(menus)
      ensures menus == if ok then old(menus) - {id} else old(menus)
      ensures attempts == old(attempts) + 1
    {
      ok := !faulty(attempts) && id in menus;
      attempts := attempts + 1;
      if ok { menus := menus - {id}; }
    }

    /** In no particular order. */
    method ListIdentityMenus() returns (listed: seq<Menu>)
      requires Keyed(menus)
      ensures DistinctKeys(Id, listed)
      ensures forall m :: m in listed <==> m.id in menus && menus[m.id] == m
    {
      listed := [];
      var left := menus.Keys;
      while left != {}
        invariant left <= menus.Keys
        invariant forall i :: 0 <= i < |listed| ==> listed[i].id !in left
        invariant DistinctKeys(Id, listed)
        invariant forall m :: m in listed <==> m.id in menus && m.id !in left && menus[m.id] == m
      {
        var id :| id in left;
        left := left - {id};
        listed := listed + [menus[id]];
      }
    }
  }

  /** The ids of the menus that name `parent`, in list order. */
  ghost predicate Groups(listed: seq<Menu>, n: nat, byParent: map<string, seq<string>>)
    requires n <= |listed|
  {
    && (forall p, c :: p in byParent && c in byParent[p]
         ==> exists i :: 0 <= i < n && listed[i].id == c && listed[i].parent == p)
    && (forall i :: 0 <= i < n ==> listed[i].parent in byParent && listed[i].id in byParent[listed[i].parent])
  }

  method GroupByParent(listed: seq<Menu>) returns (byParent: map<string, seq<string>>, retired: set<string>)
    ensures Groups(listed, |listed|, byParent)
    ensures forall id :: id in retired <==> exists m :: m in listed && m.id == id && m.key in RETIRED_KEYS
  {
    byParent, retired := map[], {};
    for i := 0 to |listed|
      invariant Groups(listed, i, byParent)
      invariant forall id :: id in retired <==> exists m :: m in listed[..i] && m.id == id && m.key in RETIRED_KEYS
    {
      var m := listed[i];
      ghost var before := byParent;
      var siblings := if m.parent in byParent then byParent[m.parent] else [];
      byParent := byParent[m.parent := siblings + [m.id]];
      if m.key in RETIRED_KEYS { retired := retired + {m.id}; }
    }
  }

  /** The table lists exactly the children of every menu. */
  ghost predicate Tabled(all: Menus, byParent: map<string, seq<string>>) {
    && (forall p, c :: p in byParent && c in byParent[p] ==> c in all && all[c].parent == p)
    && (forall c :: c in all ==> all[c].parent in byParent && c in byParent[all[c].parent])
  }

  lemma GroupsAreTabled(all: Menus, listed: seq<Menu>, byParent: map<string, seq<string>>)
    requires Keyed(all) && Groups(listed, |listed|, byParent)
    requires forall m :: m in listed <==> m.id in all && all[m.id] == m
    ensures Tabled(all, byParent)
  {
    forall p, c | p in byParent && c in byParent[p] ensures c in all && all[c].parent == p {
      var i :| 0 <= i < |listed| && listed[i].id == c && listed[i].parent == p;
      assert listed[i] in listed;
    }
    forall c | c in all ensures all[c].parent in byParent && c in byParent[all[c].parent] {
      assert all[c] in listed;
      var i :| 0 <= i < |listed| && listed[i] == all[c];
    }
  }

  /** The listed children of a menu are all its children. */
  ghost predicate AllChildren(up: Parents, id: string, children: seq<string>) {
    && (forall i :: 0 <= i < |children| ==> children[i] in up && up[children[i]] == id)
    && (forall c :: c in up && up[c] == id ==> c in children)
  }

  lemma ChildrenOf(all: Menus, byParent: map<string, seq<string>>, id: string)
    requires Keyed(all) && Tabled(all, byParent) && id in all
    ensures AllChildren(Links(all), id, if id in byParent then byParent[id] else [])
  {
    var children := if id in byParent then byParent[id] else [];
    forall i | 0 <= i < |children| ensures children[i] in Links(all) && Links(all)[children[i]] == id {
      assert children[i] in byParent[id];
    }
  }

  lemma ChildAt(all: Menus, id: string, children: seq<string>, i: nat)
    requires AllChildren(Links(all), id, children) && i < |children|
    ensures children[i] in all && children[i] in Links(all) && Links(all)[children[i]] == id
  {
  }

  ghost predicate DoneUpTo(children: seq<string>, n: int, removed: set<string>) {
    n <= |children| && forall j :: 0 <= j < n ==> children[j] in removed
  }

  lemma NoneDone(children: seq<string>, removed: set<string>)
    ensures DoneUpTo(children, 0, removed)
  {
  }

  lemma DoneNext(children: seq<string>, n: nat, before: set<string>, after: set<string>)
    requires DoneUpTo(children, n, before) && before <= after && n < |children| && children[n] in after
    ensures DoneUpTo(children, n + 1, after)
  {
  }

  lemma AllDone(up: Parents, id: string, children: seq<string>, removed: set<string>)
    requires AllChildren(up, id, children) && DoneUpTo(children, |children|, removed)
    ensures forall c :: c in up && up[c] == id ==> c in removed
  {
  }

  /** A walk that only removes menus under `id`. */
  ghost predicate Only(up: Parents, before: set<string>, after: set<string>, id: string) {
    before <= after && forall u :: u in after && u !in before ==> Under(up, u, id)
  }

  /** Removing the children of `id` has not removed `id`. */
  ghost predicate OnlyBelow(up: Parents, before: set<string>, after: set<string>, id: string) {
    Only(up, before, after, id) && (id in after ==> id in before)
  }

  lemma ChildRemoved(up: Parents, before: set<string>, middle: set<string>, after: set<string>, child: string)
    requires child in up && !OnCycle(up, up[child])
    requires OnlyBelow(up, before, middle, up[child]) && Only(up, middle, after, child)
    ensures OnlyBelow(up, before, after, up[child]) && middle <= after
  {
    forall u | u in after && u !in before ensures Under(up, u, up[child]) && u != up[child] {
      if u !in middle { BelowChild(up, u, child); }
    }
  }

  lemma RemovedItself(up: Parents, before: set<string>, now: set<string>, id: string)
    requires OnlyBelow(up, before, now, id) && id !in before
    ensures id !in now && Only(up, before, now, id) && Only(up, before, now + {id}, id)
  {
    UnderItself(up, id);
  }

  class Retirement {
    ghost const all: Menus
    const byParent: map<string, seq<string>>
    const store: Store
    var removed: set<string>
    ghost var log: seq<string>

    constructor (ghost all: Menus, byParent: map<string, seq<string>>, store: Store)
      requires store.menus == all
      ensures this.all == all && this.byParent == byParent && this.store == store
      ensures removed == {} && log == [] && Standing(all, removed, log, store.menus)
    {
      this.all, this.byParent, this.store := all, byParent, store;
      removed, log := {}, [];
    }

    /** Removes `id` after everything below it; stops at the first failure of
        the store. */
    method RemoveTree(id: string) returns (ok: bool)
      requires Keyed(all) && Tabled(all, byParent) && id in all && !OnCycle(Links(all), id)
      requires Standing(all, removed, log, store.menus)
      modifies this, store
      ensures Standing(all, removed, log, store.menus)
      ensures Only(Links(all), old(removed), removed, id)
      ensures if ok then id in removed else store.attempts > 0 && store.faulty(store.attempts - 1)
      decreases Subtree(all, id), 1
    {
      if id in removed { return true; }
      hide *;
      ok := RemoveChildren(id);
      RemovedItself(Links(all), old(removed), removed, id);
      if !ok { return; }
      ghost var now := store.menus;
      StillThere(all, removed, log, now, id);
      ok := store.RemoveIdentityMenu(id);
      if !ok { return; }
      RemoveOne(all, removed, log, now, id);
      removed := removed + {id};
      log := log + [id];
    }

    method RemoveChildren(id: string) returns (ok: bool)
      requires Keyed(all) && Tabled(all, byParent) && id in all && !OnCycle(Links(all), id) && id !in removed
      requires Standing(all, removed, log, store.menus)
      modifies this, store
      ensures Standing(all, removed, log, store.menus)
      ensures OnlyBelow(Links(all), old(removed), removed, id)
      ensures if ok then forall c :: c in Links(all) && Links(all)[c] == id ==> c in removed
              else store.attempts > 0 && store.faulty(store.attempts - 1)
      decreases Subtree(all, id), 0
    {
      ghost var up := Links(all);
      assert OnlyBelow(up, removed, removed, id);
      ChildrenOf(all, byParent, id);
      hide *;
      var children := if id in byParent then byParent[id] else [];
      NoneDone(children, removed);
      for i := 0 to |children|
        invariant Standing(all, removed, log, store.menus)
        invariant OnlyBelow(up, old(removed), removed, id)
        invariant DoneUpTo(children, i, removed)
      {
        ghost var middle := removed;
        ChildAt(all, id, children, i);
        ChildHasLess(all, children[i]);
        ok := RemoveTree(children[i]);
        ChildRemoved(up, old(removed), middle, removed, children[i]);
        if !ok { return; }
        DoneNext(children, i, middle, removed);
      }
      AllDone(up, id, children, removed);
      ok := true;
    }
  }

  /** Everything below a removed menu is removed. */
  lemma {:induction false} RemovedBelow(all: Menus, removed: set<string>, log: seq<string>, now: Menus, u: string,
                                        n: nat)
    requires Standing(all, removed, log, now) && Climb(Links(all), u, n).Some?
      && Climb(Links(all), u, n).value in removed
    ensures u in removed
    decreases n
  {
    var up := Links(all);
    if n > 0 {
      RemovedBelow(all, removed, log, now, up[u], n - 1);
      var i :| 0 <= i < |log| && log[i] == up[u];
      assert u in log[..i];
    }
  }

  /** Once every retired menu is removed, and only menus under one, the removed
      menus are exactly the doomed ones. */
  lemma AllDoomedRemoved(all: Menus, removed: set<string>, log: seq<string>, now: Menus)
    requires Standing(all, removed, log, now) && removed <= Doomed(all)
    requires forall r :: Retired(all, r) ==> r in removed
    ensures removed == Doomed(all) && now == all - Doomed(all)
  {
    var up := Links(all);
    forall u | u in Doomed(all) ensures u in removed {
      var r :| Retired(all, r) && Under(up, u, r);
      var n: nat :| Climb(up, u, n) == Some(r);
      RemovedBelow(all, removed, log, now, u, n);
    }
  }

  lemma OnlyDoomed(all: Menus, before: set<string>, after: set<string>, r: string)
    requires before <= Doomed(all) && after <= all.Keys && Retired(all, r) && Only(Links(all), before, after, r)
    ensures after <= Doomed(all)
  {
  }

  lemma ListingFindsRetired(all: Menus, listed: seq<Menu>, retired: set<string>)
    requires forall m :: m in listed <==> m.id in all && all[m.id] == m
    requires Keyed(all) && forall id :: id in retired <==>
               exists m :: m in listed && m.id == id && m.key in RETIRED_KEYS
    ensures forall id :: id in retired <==> Retired(all, id)
  {
    forall id | Retired(all, id) ensures id in retired { assert all[id] in listed; }
  }

  /** Success removes exactly the doomed menus. Whatever fails on the way, the
      menus removed so far are doomed, each removed once, after its children. */
  method RetireRemovedMenus(store: Store) returns (ok: bool, ghost removed: set<string>, ghost log: seq<string>)
    requires Keyed(store.menus) && RetiredOffCycle(store.menus)
    modifies store
    ensures Standing(old(store.menus), removed, log, store.menus)
    ensures removed <= Doomed(old(store.menus))
    ensures if ok then store.menus == old(store.menus) - Doomed(old(store.menus))
            else store.attempts > 0 && store.faulty(store.attempts - 1)
  {
    hide *;
    ghost var all := store.menus;
    var listed := store.ListIdentityMenus();
    var byParent, retired := GroupByParent(listed);
    GroupsAreTabled(all, listed, byParent);
    ListingFindsRetired(all, listed, retired);
    var retirement := new Retirement(all, byParent, store);
    ok := RetireAll(retirement, retired);
    removed, log := retirement.removed, retirement.log;
    if ok { AllDoomedRemoved(all, removed, log, store.menus); }
  }

  method RetireAll(retirement: Retirement, retired: set<string>) returns (ok: bool)
    requires Keyed(retirement.all) && Tabled(retirement.all, retirement.byParent) && RetiredOffCycle(retirement.all)
    requires forall id :: id in retired <==> Retired(retirement.all, id)
    requires retirement.removed == {}
    requires Standing(retirement.all, retirement.removed, retirement.log, retirement.store.menus)
    modifies retirement, retirement.store
    ensures Standing(retirement.all, retirement.removed, retirement.log, retirement.store.menus)
    ensures retirement.removed <= Doomed(retirement.all)
    ensures if ok then retired <= retirement.removed
            else retirement.store.attempts > 0 && retirement.store.faulty(retirement.store.attempts - 1)
  {
    hide Tabled, Links, OnCycle, Keyed, Doomed, Under;
    ghost var all := retirement.all;
    assert retirement.removed <= Doomed(all);
    var left := retired;
    while left != {}
      invariant left <= retired && retired - left <= retirement.removed
      invariant Standing(all, retirement.removed, retirement.log, retirement.store.menus)
      invariant retirement.removed <= Doomed(all)
    {
      var id :| id in left;
      ghost var before := retirement.removed;
      ok := retirement.RemoveTree(id);
      OnlyDoomed(all, before, retirement.removed, id);
      if !ok { return; }
      left := left - {id};
    }
    ok := true;
  }

  // ---------------------------------------------------------------------
  // When a retirement ends
  // ---------------------------------------------------------------------

  function ChildrenIn(byParent: map<string, seq<string>>, id: string): seq<string> {
    if id in byParent then byParent[id] else []
  }

  /** What is removed after removing a tree from a store that never fails, with
      calls nested at most `depth` deep; none if that is not deep enough. */
  function Removed(byParent: map<string, seq<string>>, removed: set<string>, id: string, depth: nat)
    : Option<set<string>>
    decreases depth, 0
  {
    if id in removed then Some(removed)
    else if depth == 0 then None
    else
      match AllRemoved(byParent, removed, ChildrenIn(byParent, id), depth - 1)
      case None => None
      case Some(after) => Some(after + {id})
  }

  function AllRemoved(byParent: map<string, seq<string>>, removed: set<string>, ids: seq<string>, depth: nat)
    : Option<set<string>>
    decreases depth, 1, |ids|
  {
    if ids == [] then Some(removed)
    else
      match Removed(byParent, removed, ids[0], depth)
      case None => None
      case Some(after) => AllRemoved(byParent, after, ids[1..], depth)
  }

  ghost predicate NoneOnCycle(up: Parents, removed: set<string>) {
    forall u :: u in removed ==> !OnCycle(up, u)
  }

  /** A removal that ends has removed its menu and nothing that lies on a cycle. */
  lemma {:induction false} EndsOffCycle(all: Menus, byParent: map<string, seq<string>>, removed: set<string>,
                                        id: string, depth: nat)
    requires Keyed(all) && Tabled(all, byParent) && id in all && NoneOnCycle(Links(all), removed)
    requires Removed(byParent, removed, id, depth).Some?
    ensures var after := Removed(byParent, removed, id, depth).value;
      removed <= after && id in after && NoneOnCycle(Links(all), after)
    decreases depth, 0
  {
    if id !in removed {
      var up, children := Links(all), ChildrenIn(byParent, id);
      ChildrenOf(all, byParent, id);
      hide Tabled, OnCycle;
      AllEndOffCycle(all, byParent, removed, children, depth - 1);
      OffCycleWithChildren(up, id);
    }
  }

  lemma {:induction false} AllEndOffCycle(all: Menus, byParent: map<string, seq<string>>, removed: set<string>,
                                          ids: seq<string>, depth: nat)
    requires Keyed(all) && Tabled(all, byParent) && NoneOnCycle(Links(all), removed)
    requires forall i :: 0 <= i < |ids| ==> ids[i] in all
    requires AllRemoved(byParent, removed, ids, depth).Some?
    ensures var after := AllRemoved(byParent, removed, ids, depth).value;
      removed <= after && NoneOnCycle(Links(all), after) && forall i :: 0 <= i < |ids| ==> ids[i] in after
    decreases depth, 1, |ids|
  {
    hide Tabled, NoneOnCycle, Links;
    if ids != [] {
      EndsOffCycle(all, byParent, removed, ids[0], depth);
      AllEndOffCycle(all, byParent, Removed(byParent, removed, ids[0], depth).value, ids[1..], depth);
    }
  }

  /** A menu on a cycle has a child on the same cycle. */
  lemma ChildOnCycle(up: Parents, id: string) returns (c: string)
    requires OnCycle(up, id)
    ensures c in up && up[c] == id && OnCycle(up, c)
  {
    var n: nat :| n >= 1 && Climb(up, id, n) == Some(id);
    ClimbStays(up, id, n - 1, n);
    c := Climb(up, id, n - 1).value;
    ClimbNext(up, id, n - 1);
    ClimbPlus(up, c, 1, n - 1);
    assert Climb(up, c, 1) == Some(id);
    assert Climb(up, c, n) == Some(c);
  }

  lemma OffCycleWithChildren(up: Parents, id: string)
    requires forall c :: c in up && up[c] == id ==> !OnCycle(up, c)
    ensures !OnCycle(up, id)
  {
    if OnCycle(up, id) { var c := ChildOnCycle(up, id); }
  }

  lemma {:induction false} Deeper(byParent: map<string, seq<string>>, removed: set<string>, id: string, depth: nat,
                                  more: nat)
    requires depth <= more && Removed(byParent, removed, id, depth).Some?
    ensures Removed(byParent, removed, id, more) == Removed(byParent, removed, id, depth)
    decreases depth, 0
  {
    if id !in removed { AllDeeper(byParent, removed, ChildrenIn(byParent, id), depth - 1, more - 1); }
  }

  lemma {:induction false} AllDeeper(byParent: map<string, seq<string>>, removed: set<string>, ids: seq<string>,
                                     depth: nat, more: nat)
    requires depth <= more && AllRemoved(byParent, removed, ids, depth).Some?
    ensures AllRemoved(byParent, removed, ids, more) == AllRemoved(byParent, removed, ids, depth)
    decreases depth, 1, |ids|
  {
    if ids != [] {
      Deeper(byParent, removed, ids[0], depth, more);
      AllDeeper(byParent, Removed(byParent, removed, ids[0], depth).value, ids[1..], depth, more);
    }
  }

  lemma {:induction false} OffCycleEnds(all: Menus, byParent: map<string, seq<string>>, removed: set<string>,
                                        id: string)
    returns (depth: nat)
    requires Keyed(all) && Tabled(all, byParent) && id in all && !OnCycle(Links(all), id)
    ensures Removed(byParent, removed, id, depth).Some?
    decreases Subtree(all, id), 1
  {
    var children := ChildrenIn(byParent, id);
    ChildrenOf(all, byParent, id);
    var inner := ChildrenEnd(all, byParent, removed, id, children);
    depth := inner + 1;
  }

  lemma {:induction false} ChildrenEnd(all: Menus, byParent: map<string, seq<string>>, removed: set<string>,
                                       id: string, children: seq<string>)
    returns (depth: nat)
    requires Keyed(all) && Tabled(all, byParent) && id in all && !OnCycle(Links(all), id)
    requires forall i :: 0 <= i < |children| ==> children[i] in Links(all) && Links(all)[children[i]] == id
    ensures AllRemoved(byParent, removed, children, depth).Some?
    decreases Subtree(all, id), 0, |children|
  {
    depth := 0;
    if children != [] {
      ChildHasLess(all, children[0]);
      assert children[0] in all;
      hide Tabled, OnCycle, Links, Subtree, Keyed;
      var first := OffCycleEnds(all, byParent, removed, children[0]);
      var after := Removed(byParent, removed, children[0], first).value;
      var rest := ChildrenEnd(all, byParent, after, id, children[1..]);
      depth := first + rest;
      Deeper(byParent, removed, children[0], first, depth);
      AllDeeper(byParent, after, children[1..], rest, depth);
    }
  }

  lemma {:induction false} AllOffCycleEnd(all: Menus, byParent: map<string, seq<string>>, removed: set<string>,
                                          ids: seq<string>)
    returns (depth: nat)
    requires Keyed(all) && Tabled(all, byParent)
    requires forall i :: 0 <= i < |ids| ==> ids[i] in all && !OnCycle(Links(all), ids[i])
    ensures AllRemoved(byParent, removed, ids, depth).Some?
    decreases |ids|
  {
    hide Tabled, OnCycle, Links, Keyed;
    depth := 0;
    if ids != [] {
      var first := OffCycleEnds(all, byParent, removed, ids[0]);
      var after := Removed(byParent, removed, ids[0], first).value;
      var rest := AllOffCycleEnd(all, byParent, after, ids[1..]);
      depth := first + rest;
      Deeper(byParent, removed, ids[0], first, depth);
      AllDeeper(byParent, after, ids[1..], rest, depth);
    }
  }

  /** In whatever order the retired menus are taken, their removal from a store
      that never fails ends exactly when none of them lies on a cycle. */
  lemma RetirementEndsIff(all: Menus, byParent: map<string, seq<string>>, order: seq<string>)
    requires Keyed(all) && Tabled(all, byParent) && forall r :: r in order <==> Retired(all, r)
    ensures (exists depth :: AllRemoved(byParent, {}, order, depth).Some?) <==> RetiredOffCycle(all)
  {
    forall i | 0 <= i < |order| ensures order[i] in all && Retired(all, order[i]) { assert order[i] in order; }
    hide Tabled, OnCycle, Links, Keyed;
    if RetiredOffCycle(all) {
      var depth := AllOffCycleEnd(all, byParent, {}, order);
    }
    if depth: nat :| AllRemoved(byParent, {}, order, depth).Some? {
      AllEndOffCycle(all, byParent, {}, order, depth);
      assert forall r :: Retired(all, r) ==> r in order;
    }
  }

  // ---------------------------------------------------------------------
  // What is left is still a forest
  // ---------------------------------------------------------------------

  lemma ForestIsAcyclic(menus: Menus)
    requires Forest(menus)
    ensures Acyclic(Links(menus)) && RetiredOffCycle(menus)
  {
    forall u | u in Links(menus) ensures !OnCycle(Links(menus), u) {
      assert Rooted(menus, u);
      EndsNoCycle(Links(menus), u);
    }
    forall r | Retired(menus, r) ensures !OnCycle(Links(menus), r) {
      if OnCycle(Links(menus), r) { CyclePassesParent(Links(menus), r); }
    }
  }

  lemma RemovedWithParent(all: Menus, removed: set<string>, log: seq<string>, now: Menus, u: string)
    requires Standing(all, removed, log, now) && u in Links(all)
    ensures Links(all)[u] in removed ==> u in removed
  {
    if Links(all)[u] in removed {
      var i :| 0 <= i < |log| && log[i] == Links(all)[u];
      assert u in log[..i];
    }
  }

  lemma {:induction false} StaysRootedAfter(all: Menus, removed: set<string>, log: seq<string>, now: Menus, u: string)
    requires Standing(all, removed, log, now) && u !in removed && Rooted(all, u)
    ensures Rooted(now, u)
    decreases Height(Links(all), u)
  {
    var up := Links(all);
    if u in up {
      RemovedWithParent(all, removed, log, now, u);
      RootedAbove(all, u);
      HeightOfParent(up, u);
      StaysRootedAfter(all, removed, log, now, up[u]);
      assert u in Links(now) && Links(now)[u] == up[u];
      RootedAbove(now, u);
    } else {
      RootedAtTop(all, u);
      RootedAtTop(now, u);
    }
  }

  /** A retirement may stop half-way, and still leaves no menu without its
      parent: a forest stays a forest. */
  lemma RetirementKeepsForest(all: Menus, removed: set<string>, log: seq<string>, now: Menus)
    requires Forest(all) && Standing(all, removed, log, now)
    ensures Forest(now)
  {
    forall u | u in now ensures Rooted(now, u) { StaysRootedAfter(all, removed, log, now, u); }
  }
}
