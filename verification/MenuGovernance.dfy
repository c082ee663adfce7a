/** Menus name their parent by id. Validation walks the chain of parents of a
    candidate menu; saving makes the same check. Both keep the menus a forest. */
module MenuGovernance {
  import opened Options
  import opened ParentGraph
  import opened Lookup

  datatype Menu = Menu(id: string, key: string, parent: string)

  datatype Issue =
    | IdKeyRequired
    | KeyExists(key: string)
    | ParentSelf(id: string)
    | ParentCycle(id: string)
    | ParentNotFound(id: string)

  type Menus = map<string, Menu>

  function Id(m: Menu): string { m.id }

  /** Who names whom as parent; the parent may be missing. */
  function Links(menus: Menus): Parents {
    map id | id in menus && menus[id].parent != "" :: menus[id].parent
  }

  /** A menu without an id goes by its key and the other way round. */
  function Named(m: Menu): Menu {
    m.(id := if m.id == "" then m.key else m.id, key := if m.key == "" then m.id else m.key)
  }

  /** The chain of parents of `id` reaches a menu that names no parent. */
  ghost predicate Rooted(menus: Menus, id: string) {
    var up := Links(menus);
    Ends(up, id) && Climb(up, id, Height(up, id)).value in menus
  }

  ghost predicate Forest(menus: Menus) {
    forall id :: id in menus ==> Rooted(menus, id)
  }

  /** What is wrong with the parent of a menu that is among the menus: its chain
      of parents loops, or runs into an id that no menu has. */
  ghost function ParentIssue(menus: Menus, id: string): Option<Issue>
    requires id in menus
  {
    var up := Links(menus);
    if menus[id].parent == id && id != "" then Some(ParentSelf(id))
    else if !Ends(up, id) then Some(ParentCycle(id))
    else
      var top := Climb(up, id, Height(up, id)).value;
      if top in menus then None else Some(ParentNotFound(top))
  }

  lemma NoIssueIffRooted(menus: Menus, id: string)
    requires id in menus
    ensures ParentIssue(menus, id) == None <==> Rooted(menus, id)
  {
    var up := Links(menus);
    if menus[id].parent == id && id != "" {
      assert Climb(up, id, 1) == Climb(up, id, 0) == Some(id);
      assert OnCycle(up, id);
      if Ends(up, id) { EndsNoCycle(up, id); }
    }
  }

  // ---------------------------------------------------------------------
  // The parent chain
  // ---------------------------------------------------------------------

  ghost predicate MetBefore(up: Parents, id: string, s: string, n: nat) {
    exists i: nat :: i < n && Climb(up, id, i) == Some(s)
  }

  lemma MetNext(up: Parents, id: string, s: string, n: nat)
    ensures MetBefore(up, id, s, n + 1) <==> MetBefore(up, id, s, n) || Climb(up, id, n) == Some(s)
  {
    if MetBefore(up, id, s, n + 1) {
      var i: nat :| i < n + 1 && Climb(up, id, i) == Some(s);
      assert i < n ==> MetBefore(up, id, s, n);
    }
  }

  /** The walk has seen the first `n` nodes of the chain above `id` and stands
      at the next one. */
  ghost predicate Walked(up: Parents, id: string, seen: set<string>, cursor: string, n: nat) {
    && n >= 1 && Climb(up, id, n) == Some(cursor)
    && forall s :: s in seen <==> MetBefore(up, id, s, n)
  }

  lemma MeetsItself(up: Parents, id: string, seen: set<string>, cursor: string, n: nat)
    requires Walked(up, id, seen, cursor, n) && cursor in seen
    ensures !Ends(up, id)
  {
    var i: nat :| i < n && Climb(up, id, i) == Some(cursor);
    ClimbPlus(up, id, i, n - i);
    assert OnCycle(up, cursor);
    if Ends(up, id) {
      EndsAbove(up, id, n);
      EndsNoCycle(up, cursor);
    }
  }

  lemma EndsAbove(up: Parents, id: string, n: nat)
    requires Ends(up, id) && Climb(up, id, n).Some?
    ensures Ends(up, Climb(up, id, n).value)
  {
    var m: nat :| Climb(up, id, m) == None;
    ClimbStays(up, id, m, n + m);
    ClimbPlus(up, id, n, m);
  }

  lemma WalkNext(up: Parents, id: string, seen: set<string>, cursor: string, n: nat)
    requires Walked(up, id, seen, cursor, n) && cursor !in seen
    ensures cursor in up ==> Walked(up, id, seen + {cursor}, up[cursor], n + 1)
    ensures cursor !in up ==> Ends(up, id) && Height(up, id) == n
  {
    ClimbNext(up, id, n);
    if cursor !in up {
      HeightUnique(up, id, n);
    } else {
      forall s ensures s in seen + {cursor} <==> MetBefore(up, id, s, n + 1) { MetNext(up, id, s, n); }
    }
  }

  /** The stored entry of the menu itself is never looked at: its id counts as
      seen from the start. */
  method ValidateMenuParentChain(menu: Menu, byId: Menus) returns (issue: Option<Issue>)
    requires menu.id != "" && menu.parent != menu.id
    ensures issue == ParentIssue(byId[menu.id := menu], menu.id)
  {
    ghost var all := byId[menu.id := menu];
    ghost var up := Links(all);
    ghost var n: nat := 1;
    var seen := {menu.id};
    var cursor := menu.parent;
    if cursor == "" { HeightUnique(up, menu.id, 0); }
    assert menu.parent != "" ==> Walked(up, menu.id, seen, cursor, n) by {
      if menu.parent != "" { WalkStart(up, menu.id); }
    }
    while cursor != ""
      invariant menu.id in seen && seen <= all.Keys
      invariant cursor != "" ==> Walked(up, menu.id, seen, cursor, n)
      invariant cursor == "" ==> ParentIssue(all, menu.id) == None
      decreases all.Keys - seen, cursor != ""
    {
      hide Walked, Ends;
      if cursor in seen {
        MeetsItself(up, menu.id, seen, cursor, n);
        return Some(ParentCycle(menu.id));
      }
      WalkNext(up, menu.id, seen, cursor, n);
      if cursor !in byId {
        assert Climb(up, menu.id, n) == Some(cursor) by { StandsAt(up, menu.id, seen, cursor, n); }
        return Some(ParentNotFound(cursor));
      }
      assert cursor !in up ==> Climb(up, menu.id, n) == Some(cursor) by { StandsAt(up, menu.id, seen, cursor, n); }
      seen := seen + {cursor};
      n := n + 1;
      cursor := byId[cursor].parent;
    }
    return None;
  }

  lemma WalkStart(up: Parents, id: string)
    requires id in up
    ensures Walked(up, id, {id}, up[id], 1)
  {
    assert Climb(up, id, 1) == Climb(up, up[id], 0) == Some(up[id]);
    forall s ensures s in {id} <==> MetBefore(up, id, s, 1) { MetNext(up, id, s, 0); }
  }

  lemma StandsAt(up: Parents, id: string, seen: set<string>, cursor: string, n: nat)
    requires Walked(up, id, seen, cursor, n)
    ensures Climb(up, id, n) == Some(cursor)
  {
  }

  // ---------------------------------------------------------------------
  // Validation and saving
  // ---------------------------------------------------------------------

  /** `fold` is case folding: keys that fold alike are the same key. */
  predicate Clashes(fold: string -> string, m: Menu, other: Menu) {
    other.id != m.id && fold(other.key) == fold(m.key)
  }

  function KeyIssues(fold: string -> string, m: Menu, menus: seq<Menu>, n: nat): (issues: seq<Issue>)
    requires n <= |menus|
    ensures issues == [] <==> forall i :: 0 <= i < n ==> !Clashes(fold, m, menus[i])
    ensures forall i :: 0 <= i < |issues| ==> issues[i] == KeyExists(m.key)
  {
    if n == 0 then []
    else KeyIssues(fold, m, menus, n - 1) + if Clashes(fold, m, menus[n - 1]) then [KeyExists(m.key)] else []
  }

  function AsList(issue: Option<Issue>): seq<Issue> {
    match issue
    case None => []
    case Some(i) => [i]
  }

  method ScanMenus(fold: string -> string, m: Menu, menus: seq<Menu>) returns (byId: Menus, issues: seq<Issue>)
    ensures byId == map[m.id := m] + Index(Id, menus)
    ensures issues == KeyIssues(fold, m, menus, |menus|)
  {
    byId, issues := map[m.id := m], [];
    for i := 0 to |menus|
      invariant byId == map[m.id := m] + Filled(Id, menus, i)
      invariant issues == KeyIssues(fold, m, menus, i)
    {
      byId := byId[menus[i].id := menus[i]];
      if Clashes(fold, m, menus[i]) { issues := issues + [KeyExists(m.key)]; }
    }
  }

  method ValidateMenu(fold: string -> string, menu: Menu, menus: seq<Menu>) returns (issues: seq<Issue>)
    ensures var m := Named(menu);
      if m.id == "" then issues == [IdKeyRequired]
      else issues == KeyIssues(fold, m, menus, |menus|) + AsList(ParentIssue(Index(Id, menus)[m.id := m], m.id))
  {
    hide Ends, KeyIssues, Index;
    var m := Named(menu);
    if m.id == "" { return [IdKeyRequired]; }
    var byId;
    byId, issues := ScanMenus(fold, m, menus);
    assert byId[m.id := m] == Index(Id, menus)[m.id := m];
    if m.parent == m.id {
      issues := issues + [ParentSelf(m.id)];
    } else if m.parent != "" {
      var issue := ValidateMenuParentChain(m, byId);
      issues := issues + AsList(issue);
    } else {
      HeightUnique(Links(byId[m.id := m]), m.id, 0);
    }
  }

  /** Why a menu cannot be saved among the stored ones: the first thing wrong. */
  ghost function Refusal(fold: string -> string, stored: Menus, m: Menu): Option<Issue> {
    if m.id == "" then Some(IdKeyRequired)
    else if exists id :: id in stored && Clashes(fold, m, stored[id]) then Some(KeyExists(m.key))
    else ParentIssue(stored[m.id := m], m.id)
  }

  lemma ClashesInStore(fold: string -> string, m: Menu, listed: seq<Menu>)
    requires DistinctKeys(Id, listed)
    ensures KeyIssues(fold, m, listed, |listed|) == [] <==>
            forall id :: id in Index(Id, listed) ==> !Clashes(fold, m, Index(Id, listed)[id])
  {
    hide Clashes, DistinctKeys;
    var stored := Index(Id, listed);
    IndexSound(Id, listed);
    hide Index;
    if KeyIssues(fold, m, listed, |listed|) == [] {
      forall id | id in stored ensures !Clashes(fold, m, stored[id]) {
        var i :| 0 <= i < |listed| && listed[i] == stored[id];
      }
    } else {
      var i :| 0 <= i < |listed| && Clashes(fold, m, listed[i]);
      IndexFinds(Id, listed, listed[i]);
      assert Id(listed[i]) in stored;
    }
  }

  /** Validating ahead of time finds a problem exactly when saving would be
      refused, and its first issue is the reason saving gives. */
  lemma {:induction false} ValidationForetellsSaving(fold: string -> string, menu: Menu, listed: seq<Menu>)
    requires DistinctKeys(Id, listed) && Named(menu).id != ""
    ensures var m := Named(menu);
      var issues := KeyIssues(fold, m, listed, |listed|) + AsList(ParentIssue(Index(Id, listed)[m.id := m], m.id));
      var refusal := Refusal(fold, Index(Id, listed), m);
      (issues == [] <==> refusal == None) && (issues != [] ==> refusal == Some(issues[0]))
  {
    hide ParentIssue, Index, DistinctKeys;
    ClashesInStore(fold, Named(menu), listed);
  }

  /** Saving keeps the keys of menus apart, whatever the folding of letter case: two
      menus never share one. */
  ghost predicate KeysApart(fold: string -> string, menus: Menus) {
    forall a, b :: a in menus && b in menus && fold(menus[a].key) == fold(menus[b].key) ==> a == b
  }

  lemma SavingKeepsKeysApart(fold: string -> string, stored: Menus, m: Menu)
    requires (forall id :: id in stored ==> stored[id].id == id) && KeysApart(fold, stored)
    requires Refusal(fold, stored, m) == None
    ensures KeysApart(fold, stored[m.id := m])
  {
    var saved := stored[m.id := m];
    forall id | id in stored && fold(stored[id].key) == fold(m.key) ensures id == m.id {
      assert !Clashes(fold, m, stored[id]);
    }
    hide Refusal;
  }

  /** Which refusal says what: nothing names the menu; another stored menu has its
      key; it is its own parent; its parents loop; or they lead to an id that no
      menu has. */
  lemma RefusalsTell(fold: string -> string, stored: Menus, menu: Menu)
    requires Refusal(fold, stored, Named(menu)) != None
    ensures var m := Named(menu);
      && (menu.id == "" && menu.key == "" <==> Refusal(fold, stored, m) == Some(IdKeyRequired))
      && match Refusal(fold, stored, m).value
         case IdKeyRequired => true
         case KeyExists(key) =>
           key == m.key && exists id :: id in stored && stored[id].id != m.id && fold(stored[id].key) == fold(m.key)
         case ParentSelf(id) => id == m.id == m.parent
         case ParentCycle(id) => id == m.id && m.parent != m.id && !Ends(Links(stored[m.id := m]), m.id)
         case ParentNotFound(id) => id !in stored && id != m.id && m.parent != ""
  {
    var m := Named(menu);
    hide Ends;
    if m.id != "" && m.parent == "" { HeightUnique(Links(stored[m.id := m]), m.id, 0); }
  }

  /** A menu without an id goes by its key, one without a key by its id. */
  lemma NamesStandIn(menu: Menu)
    ensures var m := Named(menu);
      && m.parent == menu.parent
      && (menu.id != "" ==> m.id == menu.id) && (menu.key != "" ==> m.key == menu.key)
      && (menu.id == "" ==> m.id == menu.key) && (menu.key == "" ==> m.key == menu.id)
  {
  }

  lemma LinksAfter(stored: Menus, m: Menu, u: string)
    requires m.id != "" && u != m.id
    ensures u in Links(stored) <==> u in Links(stored[m.id := m])
    ensures u in Links(stored) ==> Links(stored)[u] == Links(stored[m.id := m])[u]
  {
  }

  lemma RootedAbove(menus: Menus, u: string)
    requires u in Links(menus)
    ensures Rooted(menus, u) <==> Rooted(menus, Links(menus)[u])
  {
    var up := Links(menus);
    if Ends(up, up[u]) {
      var h := Height(up, up[u]);
      assert Climb(up, u, h + 1) == Climb(up, up[u], h);
      assert Climb(up, u, h + 2) == Climb(up, up[u], h + 1);
      HeightUnique(up, u, h + 1);
    }
    if Ends(up, u) {
      HeightOfParent(up, u);
      assert Climb(up, u, Height(up, u)) == Climb(up, up[u], Height(up, up[u]));
    }
  }

  lemma RootedAtTop(menus: Menus, u: string)
    requires u !in Links(menus)
    ensures Rooted(menus, u) <==> u in menus
  {
    HeightUnique(Links(menus), u, 0);
  }

  /** Every other menu keeps its root when the saved menu has one. */
  lemma {:induction false} StaysRooted(stored: Menus, m: Menu, u: string)
    requires m.id != "" && Rooted(stored, u) && Rooted(stored[m.id := m], m.id)
    ensures Rooted(stored[m.id := m], u)
    decreases Height(Links(stored), u)
  {
    var up := Links(stored);
    if u != m.id {
      LinksAfter(stored, m, u);
      if u in up {
        RootedAbove(stored, u);
        HeightOfParent(up, u);
        StaysRooted(stored, m, up[u]);
        RootedAbove(stored[m.id := m], u);
      } else {
        RootedAtTop(stored, u);
        RootedAtTop(stored[m.id := m], u);
      }
    }
  }

  /** Among menus that form a forest, a candidate has no parent issue exactly
      when the menus still form a forest with the candidate saved. */
  lemma NoIssueIffForestKept(stored: Menus, m: Menu)
    requires m.id != "" && Forest(stored)
    ensures ParentIssue(stored[m.id := m], m.id) == None <==> Forest(stored[m.id := m])
  {
    var saved := stored[m.id := m];
    NoIssueIffRooted(saved, m.id);
    hide Rooted;
    if Rooted(saved, m.id) {
      forall u | u in saved ensures Rooted(saved, u) {
        if u in stored { StaysRooted(stored, m, u); }
      }
    }
  }

  class Governance {
    var menus: Menus

    constructor ()
      ensures menus == map[] && Forest(menus)
    {
      menus := map[];
    }

    /** Saves a menu, or changes nothing and says why not. */
    method UpsertMenu(fold: string -> string, menu: Menu) returns (refusal: Option<Issue>)
      modifies this
      ensures refusal == Refusal(fold, old(menus), Named(menu))
      ensures menus == if refusal == None then old(menus)[Named(menu).id := Named(menu)] else old(menus)
      ensures Forest(old(menus)) ==> Forest(menus)
    {
      var m := Named(menu);
      if m.id == "" { return Some(IdKeyRequired); }
      var left := menus.Keys;
      while left != {}
        invariant left <= menus.Keys
        invariant forall id :: id in menus && id !in left ==> !Clashes(fold, m, menus[id])
      {
        var id :| id in left;
        if Clashes(fold, m, menus[id]) { return Some(KeyExists(m.key)); }
        left := left - {id};
      }
      ghost var saved := menus[m.id := m];
      if m.parent != "" {
        if m.parent == m.id { return Some(ParentSelf(m.id)); }
        refusal := ValidateMenuParentChain(m, menus);
        if refusal != None { return; }
      } else {
        HeightUnique(Links(saved), m.id, 0);
      }
      if Forest(menus) { NoIssueIffForestKept(menus, m); }
      refusal := None;
      menus := menus[m.id := m];
    }
  }
}
