/** Organization units of a seed: each unit's ancestors, path and depth are
    computed by a memoised climb through configured parents, and the units are
    listed from the top of the organization down. */
module OrganizationUnits {
  import opened Options
  import opened Ordering
  import opened ParentGraph
  import opened Lookup

  datatype Configured = Configured(id: string, code: string, name: string, nodeType: string,
                                   parent: Option<string>, sortOrder: int, status: string)

  datatype Unit = Unit(id: string, code: string, name: string, nodeType: string, parent: Option<string>,
                       path: seq<string>, ancestors: seq<string>, depth: nat, sortOrder: int, status: string)

  const DEPARTMENT := "department"
  const ACTIVE := "active"

  function Key(c: Configured): string { c.id }

  function OrDefault(value: string, fallback: string): string {
    if value == "" then fallback else value
  }

  /** Entries without an id are dropped; of two entries with one id the later wins. */
  function ById(configured: seq<Configured>): map<string, Configured> {
    Index(Key, configured) - {""}
  }

  /** Who names whom as parent, among the units that exist. */
  function ParentsOf(byId: map<string, Configured>): Parents {
    map id | id in byId && byId[id].parent.Some? && byId[id].parent.value in byId :: byId[id].parent.value
  }

  /** A unit with nothing above it, with its defaults filled in. */
  function Fresh(c: Configured, id: string): Unit {
    Unit(id, OrDefault(c.code, id), c.name, OrDefault(c.nodeType, DEPARTMENT), c.parent,
         [id], [], 0, c.sortOrder, OrDefault(c.status, ACTIVE))
  }

  /** What a unit must look like: its path is the whole chain down to it, its
      ancestors are that chain without itself, its depth is their number. */
  ghost function UnitOf(byId: map<string, Configured>, id: string): Unit
    requires id in byId && Ends(ParentsOf(byId), id)
  {
    var chain := Chain(ParentsOf(byId), id);
    Fresh(byId[id], id).(path := chain, ancestors := chain[..|chain| - 1], depth := |chain| - 1)
  }

  lemma UnitAtTop(byId: map<string, Configured>, id: string)
    requires id in byId && id !in ParentsOf(byId) && Ends(ParentsOf(byId), id)
    ensures UnitOf(byId, id) == Fresh(byId[id], id)
  {
  }

  lemma UnitBelow(byId: map<string, Configured>, id: string)
    requires id in ParentsOf(byId) && Ends(ParentsOf(byId), id)
    ensures var up := ParentsOf(byId);
      && Ends(up, up[id]) && Height(up, up[id]) < Height(up, id)
      && var parent := UnitOf(byId, up[id]);
      && UnitOf(byId, id) == Fresh(byId[id], id).(path := parent.path + [id],
                                                  ancestors := parent.ancestors + [parent.id],
                                                  depth := parent.depth + 1)
  {
    var up := ParentsOf(byId);
    HeightOfParent(up, id);
    var above := Chain(up, up[id]);
    assert above == above[..|above| - 1] + [up[id]];
    assert Chain(up, id)[..|above|] == above;
  }

  ghost predicate Right(byId: map<string, Configured>, resolved: map<string, Unit>) {
    forall id :: id in resolved ==> id in byId && Ends(ParentsOf(byId), id) && resolved[id] == UnitOf(byId, id)
  }

  class Resolver {
    const byId: map<string, Configured>
    var resolved: map<string, Unit>

    constructor (byId: map<string, Configured>)
      ensures this.byId == byId && resolved == map[]
    {
      this.byId := byId;
      resolved := map[];
    }

    /** Terminates exactly because the chain above `id` runs out. */
    method Resolve(id: string) returns (unit: Unit)
      requires id in byId && Ends(ParentsOf(byId), id)
      requires Right(byId, resolved)
      modifies this
      ensures Right(byId, resolved) && unit == UnitOf(byId, id)
      decreases Height(ParentsOf(byId), id)
    {
      hide UnitOf, Fresh, Ends;
      if id in resolved { return resolved[id]; }
      unit := Fresh(byId[id], id);
      if byId[id].parent.Some? {
        var parentId := byId[id].parent.value;
        if parentId in byId {
          UnitBelow(byId, id);
          var parent := Resolve(parentId);
          unit := unit.(path := parent.path + [id], ancestors := parent.ancestors + [parent.id],
                        depth := parent.depth + 1);
        }
      }
      if id !in ParentsOf(byId) { UnitAtTop(byId, id); }
      resolved := resolved[id := unit];
    }
  }

  /** Higher units first, then by sort order, then by id. */
  predicate UnitLe(a: Unit, b: Unit) {
    if a.depth != b.depth then a.depth < b.depth
    else if a.sortOrder != b.sortOrder then a.sortOrder < b.sortOrder
    else StringLe(a.id, b.id)
  }

  lemma UnitLeRanks()
    ensures Ranking(UnitLe)
  {
    forall x, y ensures UnitLe(x, y) || UnitLe(y, x) { StringLeTotal(x.id, y.id); }
    forall x, y, z | UnitLe(x, y) && UnitLe(y, z) ensures UnitLe(x, z) {
      if x.depth == y.depth == z.depth && x.sortOrder == y.sortOrder == z.sortOrder {
        StringLeTransitive(x.id, y.id, z.id);
      }
    }
  }

  ghost function Resolved(byId: map<string, Configured>, keys: seq<string>): (units: seq<Unit>)
    requires Acyclic(ParentsOf(byId)) && forall k :: k in keys ==> k in byId
    ensures |units| == |keys|
    ensures forall i :: 0 <= i < |keys| ==> Ends(ParentsOf(byId), keys[i]) && units[i] == UnitOf(byId, keys[i])
  {
    forall i | 0 <= i < |keys| ensures Ends(ParentsOf(byId), keys[i]) { AcyclicEnds(ParentsOf(byId), keys[i]); }
    seq(|keys|, i requires 0 <= i < |keys| => UnitOf(byId, keys[i]))
  }

  lemma ResolvedNext(byId: map<string, Configured>, keys: seq<string>, i: nat)
    requires Acyclic(ParentsOf(byId)) && (forall k :: k in keys ==> k in byId) && i < |keys|
    ensures Ends(ParentsOf(byId), keys[i])
    ensures Resolved(byId, keys[..i + 1]) == Resolved(byId, keys[..i]) + [UnitOf(byId, keys[i])]
  {
    AcyclicEnds(ParentsOf(byId), keys[i]);
  }

  ghost function Units(byId: map<string, Configured>): seq<Unit>
    requires Acyclic(ParentsOf(byId))
  {
    SortedKeysFacts(byId.Keys);
    Sort(UnitLe, Resolved(byId, SortedKeys(byId.Keys)))
  }

  /** The ids are collected by ranging over a map, in no particular order. */
  method SortedIds(byId: map<string, Configured>) returns (ids: seq<string>)
    ensures ids == SortedKeys(byId.Keys)
  {
    ids := [];
    var left := byId.Keys;
    while left != {}
      invariant left <= byId.Keys
      invariant multiset(ids) + multiset(left) == multiset(byId.Keys)
    {
      var id :| id in left;
      left := left - {id};
      ids := ids + [id];
    }
    SortedKeysUnique(byId.Keys, ids);
    ids := Sort(StringLe, ids);
  }

  lemma UnitsAreSorted(byId: map<string, Configured>)
    requires Acyclic(ParentsOf(byId))
    ensures var keys := SortedKeys(byId.Keys);
      && (forall k :: k in keys <==> k in byId)
      && Units(byId) == Sort(UnitLe, Resolved(byId, keys))
  {
    SortedKeysFacts(byId.Keys);
  }

  method ResolveAll(byId: map<string, Configured>, ids: seq<string>) returns (units: seq<Unit>)
    requires Acyclic(ParentsOf(byId)) && forall id :: id in ids ==> id in byId
    ensures units == Resolved(byId, ids)
  {
    var resolver := new Resolver(byId);
    units := [];
    assert Right(byId, resolver.resolved);
    hide *;
    for i := 0 to |ids|
      invariant Right(byId, resolver.resolved)
      invariant units == Resolved(byId, ids[..i])
    {
      AcyclicEnds(ParentsOf(byId), ids[i]);
      var unit := resolver.Resolve(ids[i]);
      units := units + [unit];
      ResolvedNext(byId, ids, i);
    }
    assert ids[..|ids|] == ids;
  }

  /** The calls that resolve a unit nest at most `depth` deep, when the units of
      `memory` were resolved before. */
  ghost predicate EndsWithin(up: Parents, memory: set<string>, id: string, depth: nat)
    decreases depth
  {
    depth > 0 && (id in memory || id !in up || EndsWithin(up, memory, up[id], depth - 1))
  }

  ghost predicate ResolveEnds(up: Parents, memory: set<string>, id: string) {
    exists depth :: EndsWithin(up, memory, id, depth)
  }

  lemma {:induction false} EndsWithinEnds(up: Parents, memory: set<string>, id: string, depth: nat)
    requires EndsWithin(up, memory, id, depth) && forall m :: m in memory ==> Ends(up, m)
    ensures Ends(up, id)
    decreases depth
  {
    if id !in up {
      assert Climb(up, id, 1) == None;
    } else if id !in memory {
      EndsWithinEnds(up, memory, up[id], depth - 1);
      var n: nat :| Climb(up, up[id], n) == None;
      assert Climb(up, id, n + 1) == None;
    }
  }

  lemma {:induction false} HeightSuffices(up: Parents, memory: set<string>, id: string)
    requires Ends(up, id)
    ensures EndsWithin(up, memory, id, Height(up, id) + 1)
    decreases Height(up, id)
  {
    if id in up && id !in memory {
      HeightOfParent(up, id);
      HeightSuffices(up, memory, up[id]);
    }
  }

  /** Resolving a unit ends exactly when its chain of parents does, whatever was
      resolved before. */
  lemma ResolveEndsIff(up: Parents, memory: set<string>, id: string)
    requires forall m :: m in memory ==> Ends(up, m)
    ensures ResolveEnds(up, memory, id) <==> Ends(up, id)
  {
    if Ends(up, id) {
      HeightSuffices(up, memory, id);
      var depth := Height(up, id) + 1;
      assert EndsWithin(up, memory, id, depth);
    }
    if depth: nat :| EndsWithin(up, memory, id, depth) { EndsWithinEnds(up, memory, id, depth); }
  }

  /** Every unit of a seed is resolved in the end exactly when no configured
      parents form a cycle. */
  lemma SeedEndsIff(byId: map<string, Configured>)
    ensures (forall id :: id in byId ==> ResolveEnds(ParentsOf(byId), {}, id)) <==> Acyclic(ParentsOf(byId))
  {
    var up := ParentsOf(byId);
    if Acyclic(up) {
      forall id | id in byId ensures ResolveEnds(up, {}, id) {
        AcyclicEnds(up, id);
        ResolveEndsIff(up, {}, id);
      }
    } else {
      var id :| id in up && OnCycle(up, id);
      if Ends(up, id) { EndsNoCycle(up, id); }
      ResolveEndsIff(up, {}, id);
      assert id in byId && !ResolveEnds(up, {}, id);
    }
  }

  method OrganizationUnits(configured: seq<Configured>) returns (units: seq<Unit>)
    requires Acyclic(ParentsOf(ById(configured)))
    ensures units == Units(ById(configured))
  {
    var byId := ById(configured);
    var ids := SortedIds(byId);
    UnitsAreSorted(byId);
    units := ResolveAll(byId, ids);
    units := Sort(UnitLe, units);
  }

  lemma ResolvedDistinct(byId: map<string, Configured>, keys: seq<string>)
    requires Acyclic(ParentsOf(byId)) && Distinct(keys) && forall k :: k in keys ==> k in byId
    ensures Distinct(Resolved(byId, keys))
  {
    var units := Resolved(byId, keys);
    forall i, j | 0 <= i < j < |units| ensures units[i] != units[j] {
      assert units[i].id == keys[i] && units[j].id == keys[j];
    }
  }

  lemma UnitsArePermuted(byId: map<string, Configured>)
    requires Acyclic(ParentsOf(byId))
    ensures var keys, units := SortedKeys(byId.Keys), Units(byId);
      && (forall k :: k in keys <==> k in byId)
      && (forall u :: u in units <==> u in Resolved(byId, keys))
      && Distinct(units) && SortedBy(UnitLe, units)
  {
    var keys := SortedKeys(byId.Keys);
    SortedKeysFacts(byId.Keys);
    DistinctMeansOnce(keys);
    hide *;
    UnitsAreSorted(byId);
    ResolvedDistinct(byId, keys);
    UnitLeRanks();
    SortSorts(UnitLe, Resolved(byId, keys));
    DistinctBag(Resolved(byId, keys), Units(byId));
  }

  lemma ListedUnits(byId: map<string, Configured>, keys: seq<string>)
    requires Acyclic(ParentsOf(byId)) && forall k :: k in keys <==> k in byId
    ensures forall u :: u in Resolved(byId, keys) ==>
      u.id in byId && Ends(ParentsOf(byId), u.id) && u == UnitOf(byId, u.id)
    ensures forall id :: id in byId ==> Ends(ParentsOf(byId), id) && UnitOf(byId, id) in Resolved(byId, keys)
  {
    hide ParentsOf, UnitOf, Acyclic, Ends;
    var listed := Resolved(byId, keys);
    forall u | u in listed ensures u.id in byId && Ends(ParentsOf(byId), u.id) && u == UnitOf(byId, u.id) {
      var k :| 0 <= k < |listed| && listed[k] == u;
      ListedUnit(byId, keys, k);
    }
    forall id | id in byId ensures Ends(ParentsOf(byId), id) && UnitOf(byId, id) in listed {
      var k :| 0 <= k < |keys| && keys[k] == id;
      ListedUnit(byId, keys, k);
      assert listed[k] in listed;
    }
  }

  lemma ListedUnit(byId: map<string, Configured>, keys: seq<string>, k: nat)
    requires Acyclic(ParentsOf(byId)) && (forall j :: j in keys <==> j in byId) && k < |keys|
    ensures var u := Resolved(byId, keys)[k];
      u.id == keys[k] && u.id in byId && Ends(ParentsOf(byId), u.id) && u == UnitOf(byId, u.id)
  {
    assert keys[k] in keys;
  }

  /** The list holds the unit of every configured id, and nothing else, once,
      sorted from the top of the organization down. */
  lemma EachUnitOnce(byId: map<string, Configured>)
    requires Acyclic(ParentsOf(byId))
    ensures var units := Units(byId);
      && (forall u :: u in units ==> u.id in byId && Ends(ParentsOf(byId), u.id) && u == UnitOf(byId, u.id))
      && (forall i, j :: 0 <= i < j < |units| ==> units[i].id != units[j].id)
      && (forall id :: id in byId ==> Ends(ParentsOf(byId), id) && UnitOf(byId, id) in units)
      && SortedBy(UnitLe, units)
  {
    UnitsArePermuted(byId);
    ListedUnits(byId, SortedKeys(byId.Keys));
    hide Units, SortedBy, Ends, ParentsOf, UnitOf, SortedKeys;
    var units := Units(byId);
    forall i, j | 0 <= i < j < |units| ensures units[i].id != units[j].id {
      assert units[i] in units && units[j] in units;
    }
  }

  /** The last entry with an id is the one configured; blank ids are dropped. */
  lemma LastEntryCounts(configured: seq<Configured>, k: nat)
    requires k < |configured| && forall j :: k < j < |configured| ==> configured[j].id != configured[k].id
    ensures if configured[k].id == "" then "" !in ById(configured)
            else configured[k].id in ById(configured) && ById(configured)[configured[k].id] == configured[k]
  {
    FilledLast(configured, k, |configured|);
  }

  lemma {:induction false} FilledLast(configured: seq<Configured>, k: nat, n: nat)
    requires k < n <= |configured| && forall j :: k < j < n ==> configured[j].id != configured[k].id
    ensures Get(Filled(Key, configured, n), configured[k].id) == Some(configured[k])
  {
    if k < n - 1 { FilledLast(configured, k, n - 1); }
  }

  /** What a listed unit takes over from its configuration, and the defaults it gets
      where that is blank. */
  lemma UnitsKeepConfiguration(byId: map<string, Configured>, u: Unit)
    requires Acyclic(ParentsOf(byId)) && u in Units(byId)
    ensures u.id in byId
    ensures var c := byId[u.id];
      && u.name == c.name && u.parent == c.parent && u.sortOrder == c.sortOrder
      && u.code == (if c.code == "" then u.id else c.code)
      && u.nodeType == (if c.nodeType == "" then "department" else c.nodeType)
      && u.status == (if c.status == "" then "active" else c.status)
  {
    EachUnitOnce(byId);
    hide Units;
  }

  /** The order of the list: by depth, then by sort order, then by id. */
  lemma UnitsInOrder(byId: map<string, Configured>, i: nat, j: nat)
    requires Acyclic(ParentsOf(byId)) && i < j < |Units(byId)|
    ensures var a, b := Units(byId)[i], Units(byId)[j];
      a.depth < b.depth || (a.depth == b.depth && (a.sortOrder < b.sortOrder
        || (a.sortOrder == b.sortOrder && StringLe(a.id, b.id) && a.id != b.id)))
  {
    EachUnitOnce(byId);
    assert UnitLe(Units(byId)[i], Units(byId)[j]);
    hide Units;
  }

  lemma UnitShape(byId: map<string, Configured>, id: string)
    requires id in byId && Ends(ParentsOf(byId), id)
    ensures var up, unit := ParentsOf(byId), UnitOf(byId, id);
      && unit.depth == |unit.ancestors|
      && (id in up <==> unit.ancestors != [])
      && (id in up ==> Ends(up, up[id]) && unit.ancestors == UnitOf(byId, up[id]).path
                       && unit.depth == UnitOf(byId, up[id]).depth + 1)
  {
    var up := ParentsOf(byId);
    if id in up {
      HeightOfParent(up, id);
      var above := Chain(up, up[id]);
      assert Chain(up, id)[..|above|] == above;
    } else {
      UnitAtTop(byId, id);
    }
  }

  /** A unit below another comes after it: its parent stands earlier in the
      list, and the parent's path is the unit's ancestors. */
  lemma ParentsComeFirst(byId: map<string, Configured>, i: nat)
    requires Acyclic(ParentsOf(byId)) && i < |Units(byId)|
    ensures var units := Units(byId);
      && units[i].depth == |units[i].ancestors|
      && (units[i].id in ParentsOf(byId) <==> units[i].ancestors != [])
      && (units[i].ancestors != [] ==>
            exists j :: 0 <= j < i && units[j].id == ParentsOf(byId)[units[i].id] &&
                        units[j].path == units[i].ancestors)
  {
    EachUnitOnce(byId);
    hide Units, Ends, UnitOf;
    var up, units := ParentsOf(byId), Units(byId);
    assert units[i] in units;
    var id := units[i].id;
    UnitShape(byId, id);
    if id in up {
      var parent := UnitOf(byId, up[id]);
      var j :| 0 <= j < |units| && units[j] == parent;
      assert parent.id == up[id] by { UnitNamed(byId, up[id]); }
      assert i < j ==> UnitLe(units[i], units[j]);
    }
  }

  lemma UnitNamed(byId: map<string, Configured>, id: string)
    requires id in byId && Ends(ParentsOf(byId), id)
    ensures UnitOf(byId, id).id == id
  {
  }

  /** With distinct ids the list does not depend on the order of the seed. */
  lemma UnitsIgnoreOrder(a: seq<Configured>, b: seq<Configured>)
    requires DistinctKeys(Key, a) && DistinctKeys(Key, b) && multiset(a) == multiset(b)
    requires Acyclic(ParentsOf(ById(a)))
    ensures Acyclic(ParentsOf(ById(b))) && Units(ById(a)) == Units(ById(b))
  {
    SameBag(a, b);
    IndexIgnoresOrder(Key, a, b);
  }
}
