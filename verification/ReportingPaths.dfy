/** Reporting paths of seeded users: a memoised climb from each user to the top
    of the manager chain, over managers that may be missing or form cycles.
    A path such as `/root/lead/user` is the list of its ids. */
module ReportingPaths {
  import opened Options
  import opened ParentGraph
  import opened Lookup
  import opened Ordering

  datatype User = User(id: string, manager: string, path: seq<string>)

  function Id(user: User): string { user.id }

  /** Who names whom as manager, among the users that exist. */
  function Managers(byId: map<string, User>): Parents {
    map id | id in byId && byId[id].manager != "" && byId[id].manager in byId :: byId[id].manager
  }

  /** One or more steps up from `v` lead to `u`. */
  ghost predicate Reaches(up: Parents, v: string, u: string) {
    exists n: nat :: n >= 1 && Climb(up, v, n) == Some(u)
  }

  /** A path ends in its own user, repeats nobody, steps from manager to report,
      starts at a user without a manager or on a cycle, and each of its prefixes
      is the path of the user that prefix ends in. */
  ghost predicate Fits(up: Parents, paths: map<string, seq<string>>, u: string)
    requires u in paths
  {
    var p := paths[u];
    && p != [] && p[|p| - 1] == u
    && Distinct(p)
    && (forall i :: 0 < i < |p| ==> p[i] in up && up[p[i]] == p[i - 1])
    && (p[0] in up ==> OnCycle(up, p[0]))
    && (forall i :: 0 <= i < |p| ==> p[i] in paths && paths[p[i]] == p[..i + 1])
  }

  ghost predicate AllFit(up: Parents, paths: map<string, seq<string>>) {
    forall u :: u in paths ==> Fits(up, paths, u)
  }

  lemma ReachesNext(up: Parents, v: string, u: string)
    requires (v == u || Reaches(up, v, u)) && u in up
    ensures Reaches(up, v, up[u])
  {
    if v == u { assert Climb(up, u, 0) == Some(u); }
    var n: nat :| Climb(up, v, n) == Some(u);
    ClimbNext(up, v, n);
    assert Climb(up, v, n + 1) == Some(up[u]);
  }

  lemma ReachesBack(up: Parents, u: string)
    requires u in up && (up[u] == u || Reaches(up, up[u], u))
    ensures OnCycle(up, u)
  {
    if up[u] == u {
      assert Climb(up, u, 1) == Climb(up, u, 0) == Some(u);
    } else {
      var n: nat :| n >= 1 && Climb(up, up[u], n) == Some(u);
      assert Climb(up, u, n + 1) == Some(u);
    }
  }

  /** Storing one more path leaves the others as they fit. */
  lemma FitsStays(up: Parents, paths: map<string, seq<string>>, next: map<string, seq<string>>, u: string)
    requires u in paths && Fits(up, paths, u)
    requires forall v :: v in paths ==> v in next && next[v] == paths[v]
    ensures Fits(up, next, u)
  {
  }

  lemma FitsBelow(up: Parents, paths: map<string, seq<string>>, u: string)
    requires u in paths && u in up && up[u] in paths && Fits(up, paths, up[u])
    requires paths[u] == paths[up[u]] + [u] && u !in paths[up[u]]
    ensures Fits(up, paths, u)
  {
    var above, p := paths[up[u]], paths[u];
    forall i | 0 <= i < |p| ensures p[i] in paths && paths[p[i]] == p[..i + 1] {
      if i < |above| { assert p[i] == above[i] && p[..i + 1] == above[..i + 1]; } else { assert p[..i + 1] == p; }
    }
  }

  lemma StoreFits(up: Parents, paths: map<string, seq<string>>, u: string, above: seq<string>)
    requires AllFit(up, paths) && u !in paths
    requires above != [] ==> u in up && up[u] in paths && paths[up[u]] == above
    requires above == [] && u in up ==> OnCycle(up, u)
    ensures AllFit(up, paths[u := above + [u]])
  {
    var next := paths[u := above + [u]];
    forall v | v in paths ensures Fits(up, next, v) { FitsStays(up, paths, next, v); }
    if above != [] {
      assert Fits(up, paths, up[u]);
      FitsBelow(up, next, u);
    } else {
      assert next[u][..1] == next[u];
    }
  }

  /** The state of the resolver: users being resolved have no path yet. */
  ghost predicate Consistent(byId: map<string, User>, resolved: map<string, seq<string>>, visiting: set<string>) {
    && visiting <= byId.Keys && resolved.Keys <= byId.Keys && resolved.Keys !! visiting
    && AllFit(Managers(byId), resolved)
  }

  /** Everyone being resolved has `id` above. */
  ghost predicate Below(byId: map<string, User>, visiting: set<string>, id: string) {
    id in byId ==> forall v :: v in visiting ==> Reaches(Managers(byId), v, id)
  }

  lemma ManagerIsAbove(byId: map<string, User>, visiting: set<string>, id: string)
    requires id in byId && Below(byId, visiting, id) && byId[id].manager != ""
    ensures Below(byId, visiting + {id}, byId[id].manager)
  {
    if id in Managers(byId) {
      forall v | v in visiting + {id} ensures Reaches(Managers(byId), v, byId[id].manager) {
        ReachesNext(Managers(byId), v, id);
      }
    }
  }

  /** A user whose manager gave no path either has no manager among the users,
      or is on a cycle with the users being resolved. */
  lemma StoreKeepsConsistent(byId: map<string, User>, resolved: map<string, seq<string>>, visiting: set<string>,
                             id: string, above: seq<string>)
    requires id in byId && id !in visiting && Below(byId, visiting, id)
    requires Consistent(byId, resolved, visiting + {id})
    requires var manager := byId[id].manager;
      if manager != "" && manager in byId && manager !in visiting + {id}
      then manager in resolved && above == resolved[manager] else above == []
    ensures Consistent(byId, resolved[id := above + [id]], visiting)
  {
    var up := Managers(byId);
    if id in up && up[id] in visiting + {id} { ReachesBack(up, id); }
    StoreFits(up, resolved, id, above);
  }

  // ---------------------------------------------------------------------
  // The climb as a function
  // ---------------------------------------------------------------------

  /** The path a climb gives: it stops at a stored path, at an unknown user and
      at a user being resolved; the last two give nothing to build on. */
  function Climbed(byId: map<string, User>, resolved: map<string, seq<string>>, visiting: set<string>,
                   id: string): seq<string>
    decreases byId.Keys - visiting
  {
    if id in resolved && resolved[id] != [] then resolved[id]
    else if id !in byId || id in visiting then []
    else
      var manager := byId[id].manager;
      (if manager == "" then [] else Climbed(byId, resolved, visiting + {id}, manager)) + [id]
  }

  /** The paths stored afterwards: one for every user the climb went through. */
  function Stored(byId: map<string, User>, resolved: map<string, seq<string>>, visiting: set<string>, id: string)
    : map<string, seq<string>>
    decreases byId.Keys - visiting
  {
    if (id in resolved && resolved[id] != []) || id !in byId || id in visiting then resolved
    else
      var manager := byId[id].manager;
      (if manager == "" then resolved else Stored(byId, resolved, visiting + {id}, manager))
        [id := Climbed(byId, resolved, visiting, id)]
  }

  /** The paths stored for the first `n` users of a list. */
  function PathsUpTo(users: seq<User>, n: nat): map<string, seq<string>>
    requires n <= |users|
  {
    if n == 0 then map[] else Stored(Index(Id, users), PathsUpTo(users, n - 1), {}, users[n - 1].id)
  }

  function PathsOf(users: seq<User>): map<string, seq<string>> {
    PathsUpTo(users, |users|)
  }

  class Resolver {
    const byId: map<string, User>
    var resolved: map<string, seq<string>>
    var visiting: set<string>

    constructor (byId: map<string, User>)
      ensures this.byId == byId && resolved == map[] && visiting == {}
    {
      this.byId := byId;
      resolved, visiting := map[], {};
    }

    /** The memoised climb: it ends on any manager graph, cycles included. */
    method Resolve(id: string) returns (path: seq<string>)
      modifies this
      ensures path == Climbed(byId, old(resolved), old(visiting), id)
      ensures resolved == Stored(byId, old(resolved), old(visiting), id) && visiting == old(visiting)
      decreases byId.Keys - visiting
    {
      if id in resolved && resolved[id] != [] { return resolved[id]; }
      if id !in byId || id in visiting { return []; }
      ghost var outside := visiting;
      visiting := visiting + {id};
      path := [id];
      var manager := byId[id].manager;
      if manager != "" {
        var managerPath := Resolve(manager);
        if managerPath != [] { path := managerPath + [id]; }
      }
      visiting := visiting - {id};
      assert visiting == outside;
      resolved := resolved[id := path];
    }
  }

  // ---------------------------------------------------------------------
  // What the climb stores
  // ---------------------------------------------------------------------

  /** Nothing stored is lost, and a user that is known and not being resolved is
      stored with the path the climb gives. */
  lemma {:induction false} StoredKeeps(byId: map<string, User>, resolved: map<string, seq<string>>,
                                       visiting: set<string>, id: string)
    requires forall u :: u in resolved ==> resolved[u] != []
    ensures var after, path := Stored(byId, resolved, visiting, id), Climbed(byId, resolved, visiting, id);
      && (forall u :: u in resolved ==> u in after && after[u] == resolved[u])
      && (forall u :: u in after ==> after[u] != [])
      && (id in resolved || (id in byId && id !in visiting) ==> id in after && path == after[id] && path != [])
      && (id !in resolved && (id !in byId || id in visiting) ==> path == [])
    decreases byId.Keys - visiting
  {
    if !(id in resolved) && id in byId && id !in visiting && byId[id].manager != "" {
      StoredKeeps(byId, resolved, visiting + {id}, byId[id].manager);
    }
  }

  /** Whatever the managers are, what a climb stores fits the graph. */
  lemma {:induction false} StoredFits(byId: map<string, User>, resolved: map<string, seq<string>>,
                                      visiting: set<string>, id: string)
    requires Consistent(byId, resolved, visiting) && Below(byId, visiting, id)
    ensures Consistent(byId, Stored(byId, resolved, visiting, id), visiting)
    decreases byId.Keys - visiting
  {
    NoneBlank(byId, resolved, visiting);
    if id !in resolved && id in byId && id !in visiting {
      var manager := byId[id].manager;
      hide AllFit, Below;
      if manager == "" {
        StoreKeepsConsistent(byId, resolved, visiting, id, []);
      } else {
        ManagerIsAbove(byId, visiting, id);
        StoredKeeps(byId, resolved, visiting + {id}, manager);
        StoredFits(byId, resolved, visiting + {id}, manager);
        StoreKeepsConsistent(byId, Stored(byId, resolved, visiting + {id}, manager), visiting, id,
                             Climbed(byId, resolved, visiting + {id}, manager));
      }
    }
  }

  lemma NoneBlank(byId: map<string, User>, resolved: map<string, seq<string>>, visiting: set<string>)
    requires Consistent(byId, resolved, visiting)
    ensures forall u :: u in resolved ==> resolved[u] != []
  {
    forall u | u in resolved ensures resolved[u] != [] { assert Fits(Managers(byId), resolved, u); }
  }

  /** For any manager graph the paths of a seed fit it, one for every user: each
      ends in its user, repeats nobody, steps from manager to report, and each
      of its prefixes is the path of the user that prefix ends in. */
  lemma {:induction false} PathsUpToFit(users: seq<User>, n: nat)
    requires n <= |users|
    ensures Consistent(Index(Id, users), PathsUpTo(users, n), {})
    ensures forall i :: 0 <= i < n ==> users[i].id in PathsUpTo(users, n)
  {
    if n > 0 {
      var byId, before := Index(Id, users), PathsUpTo(users, n - 1);
      IndexSound(Id, users);
      assert users[n - 1] in users && Id(users[n - 1]) in byId;
      PathsUpToFit(users, n - 1);
      NoneBlank(byId, before, {});
      StoredKeeps(byId, before, {}, users[n - 1].id);
      StoredFits(byId, before, {}, users[n - 1].id);
    }
  }

  lemma PathsFit(users: seq<User>)
    ensures PathsOf(users).Keys == Index(Id, users).Keys && AllFit(Managers(Index(Id, users)), PathsOf(users))
  {
    PathsUpToFit(users, |users|);
    EveryoneHasPath(users, PathsOf(users));
  }

  lemma EveryoneHasPath(users: seq<User>, paths: map<string, seq<string>>)
    requires paths.Keys <= Index(Id, users).Keys
    requires forall i :: 0 <= i < |users| ==> users[i].id in paths
    ensures paths.Keys == Index(Id, users).Keys
  {
    var byId := Index(Id, users);
    IndexSound(Id, users);
    forall id | id in byId ensures id in paths {
      var i :| 0 <= i < |users| && users[i] == byId[id];
      assert Id(byId[id]) == id;
    }
  }

  /** The first `n` users carry their path; nothing else about them changed. */
  ghost predicate PathsFilled(before: seq<User>, now: seq<User>, paths: map<string, seq<string>>, n: int) {
    && |now| == |before| && 0 <= n <= |before|
    && (forall i :: 0 <= i < n ==> before[i].id in paths && now[i] == before[i].(path := paths[before[i].id]))
    && (forall i :: n <= i < |before| ==> now[i] == before[i])
  }

  /** One more user keeps the paths there are. */
  lemma NextPath(users: seq<User>, n: nat)
    requires n < |users|
    ensures var before, after := PathsUpTo(users, n), PathsUpTo(users, n + 1);
      && (forall u :: u in before ==> u in after && after[u] == before[u])
      && users[n].id in after && after[users[n].id] == Climbed(Index(Id, users), before, {}, users[n].id)
  {
    var byId, paths := Index(Id, users), PathsUpTo(users, n);
    IndexSound(Id, users);
    assert users[n] in users && Id(users[n]) in byId;
    PathsUpToFit(users, n);
    NoneBlank(byId, paths, {});
    StoredKeeps(byId, paths, {}, users[n].id);
  }

  lemma FillNext(before: seq<User>, now: seq<User>, n: nat)
    requires n < |before| && PathsFilled(before, now, PathsUpTo(before, n), n)
    ensures var path := Climbed(Index(Id, before), PathsUpTo(before, n), {}, before[n].id);
      PathsFilled(before, now[n := before[n].(path := path)], PathsUpTo(before, n + 1), n + 1)
  {
    NextPath(before, n);
    hide PathsUpTo, Climbed, Index;
  }

  /** Writes every user's path in place. A user listed twice gets its path twice. */
  method FillReportingPaths(users: array<User>)
    modifies users
    ensures PathsFilled(old(users[..]), users[..], PathsOf(old(users[..])), users.Length)
  {
    ghost var before := users[..];
    var byId := Index(Id, users[..]);
    var resolver := new Resolver(byId);
    var index := 0;
    while index < users.Length
      invariant 0 <= index <= users.Length
      invariant resolver.visiting == {} && resolver.byId == byId && resolver.resolved == PathsUpTo(before, index)
      invariant PathsFilled(before, users[..], PathsUpTo(before, index), index)
    {
      ghost var now := users[..];
      assert now[index] == before[index];
      FillNext(before, now, index);
      hide PathsFilled, Climbed;
      var path := resolver.Resolve(users[index].id);
      users[index] := users[index].(path := path);
      assert users[..] == now[index := before[index].(path := path)];
      index := index + 1;
    }
  }

  /** Climbing from the last user of a path leads along the path. */
  lemma {:induction false} PathClimbs(up: Parents, path: seq<string>, n: nat)
    requires n < |path|
    requires forall i :: 0 < i < |path| ==> path[i] in up && up[path[i]] == path[i - 1]
    ensures Climb(up, path[|path| - 1], n) == Some(path[|path| - 1 - n])
    decreases n
  {
    if n > 0 {
      PathClimbs(up, path, n - 1);
      ClimbNext(up, path[|path| - 1], n - 1);
    }
  }

  lemma TopOfPathEnds(up: Parents, path: seq<string>)
    requires path != []
    requires forall i :: 0 < i < |path| ==> path[i] in up && up[path[i]] == path[i - 1]
    requires Ends(up, path[|path| - 1])
    ensures Ends(up, path[0])
  {
    var n, u := |path| - 1, path[|path| - 1];
    PathClimbs(up, path, n);
    var m: nat :| Climb(up, u, m) == None;
    ClimbStays(up, u, m, n + m);
    ClimbPlus(up, u, n, m);
  }

  /** A user whose managers run out has the whole chain from the top as its
      path, whoever else is on a cycle and in whatever order users are listed.
      A user whose managers never run out has a path that starts on a cycle. */
  lemma PathIsWholeChain(up: Parents, paths: map<string, seq<string>>, id: string)
    requires AllFit(up, paths) && id in paths
    ensures Ends(up, id) ==> paths[id] == Chain(up, id)
    ensures Ends(up, id) <==> paths[id] != [] && paths[id][0] !in up
    ensures !Ends(up, id) ==> paths[id] != [] && OnCycle(up, paths[id][0])
  {
    var p := paths[id];
    assert Fits(up, paths, id);
    hide *;
    if Ends(up, id) {
      TopOfPathEnds(up, p);
      EndsNoCycle(up, p[0]);
      ChainUnique(up, p);
    } else if p[0] !in up {
      ChainUnique(up, p);
    }
  }

  // ---------------------------------------------------------------------
  // When the order of the list matters
  // ---------------------------------------------------------------------

  /** Whoever is on a cycle of managers manages himself. */
  ghost predicate SelfLoopsOnly(up: Parents) {
    forall u :: OnCycle(up, u) ==> u in up && up[u] == u
  }

  function WithoutSelfLoops(up: Parents): Parents {
    map u | u in up && up[u] != u :: up[u]
  }

  /** Then a fitting path is the whole chain up to someone without a manager or
      with himself as manager. */
  lemma FitIsChain(up: Parents, paths: map<string, seq<string>>, u: string)
    requires SelfLoopsOnly(up) && u in paths && Fits(up, paths, u)
    ensures Ends(WithoutSelfLoops(up), u) && paths[u] == Chain(WithoutSelfLoops(up), u)
  {
    var p, rest := paths[u], WithoutSelfLoops(up);
    forall i | 0 < i < |p| ensures p[i] in rest && rest[p[i]] == p[i - 1] { assert p[i - 1] != p[i]; }
    hide Fits, SelfLoopsOnly;
    ChainUnique(rest, p);
  }

  lemma PathsUnique(up: Parents, pathsA: map<string, seq<string>>, pathsB: map<string, seq<string>>)
    requires SelfLoopsOnly(up) && pathsA.Keys == pathsB.Keys && AllFit(up, pathsA) && AllFit(up, pathsB)
    ensures pathsA == pathsB
  {
    hide SelfLoopsOnly, Fits, Ends;
    forall id | id in pathsA ensures pathsA[id] == pathsB[id] {
      FitIsChain(up, pathsA, id);
      FitIsChain(up, pathsB, id);
    }
  }

  lemma SameOrderless(a: seq<User>, b: seq<User>)
    requires DistinctKeys(Id, a) && multiset(a) == multiset(b)
    ensures Index(Id, a) == Index(Id, b)
  {
    DistinctKeysIgnoreOrder(Id, a, b);
    SameBag(a, b);
    IndexIgnoresOrder(Id, a, b);
  }

  lemma SelfLoopsIgnoreOrder(a: seq<User>, b: seq<User>)
    requires DistinctKeys(Id, a) && multiset(a) == multiset(b) && SelfLoopsOnly(Managers(Index(Id, a)))
    ensures PathsOf(a) == PathsOf(b)
  {
    hide *;
    SameOrderless(a, b);
    PathsFit(a);
    PathsFit(b);
    PathsUnique(Managers(Index(Id, a)), PathsOf(a), PathsOf(b));
  }

  /** The path of the first user of a list, and what its climb stored, last. */
  lemma {:induction false} FirstStays(users: seq<User>, n: nat, u: string)
    requires 1 <= n <= |users| && u in Stored(Index(Id, users), map[], {}, users[0].id)
    ensures var first := Stored(Index(Id, users), map[], {}, users[0].id);
      u in PathsUpTo(users, n) && PathsUpTo(users, n)[u] == first[u]
  {
    if n > 1 {
      FirstStays(users, n - 1, u);
      NextPath(users, n - 1);
    } else {
      assert PathsUpTo(users, 0) == map[];
    }
  }

  /** Starting from a user whose manager is someone else, the path has both. */
  lemma ClimbsPastItself(byId: map<string, User>, u: string)
    requires u in Managers(byId) && Managers(byId)[u] != u
    ensures var stored := Stored(byId, map[], {}, u); u in stored && |stored[u]| >= 2
  {
    StoredKeeps(byId, map[], {u}, byId[u].manager);
  }

  /** Climbing along a cycle from the user above `u` stops below that user: `u`
      is stored with nobody above. */
  lemma {:induction false} CutsCycle(byId: map<string, User>, visiting: set<string>, w: string, u: string, k: nat)
    requires var up := Managers(byId);
      && Climb(up, w, k) == Some(u) && u in up
      && (up[u] in visiting || (up[u] == w && k > 0))
      && (forall i: nat :: i <= k ==> Climb(up, w, i).Some? && Climb(up, w, i).value !in visiting)
      && (forall i: nat, j: nat :: i < j <= k ==> Climb(up, w, i) != Climb(up, w, j))
    ensures var stored := Stored(byId, map[], visiting, w); u in stored && stored[u] == [u]
    decreases k
  {
    var up := Managers(byId);
    assert Climb(up, w, 0) == Some(w);
    if k > 0 {
      assert Climb(up, w, 1).Some?;
      forall i: nat | i <= k - 1 ensures Climb(up, up[w], i) == Climb(up, w, i + 1) {}
      forall i: nat | i <= k - 1 ensures Climb(up, up[w], i).Some? && Climb(up, up[w], i).value !in visiting + {w} {
        assert Climb(up, w, 0) != Climb(up, w, i + 1);
      }
      forall i: nat, j: nat | i < j <= k - 1 ensures Climb(up, up[w], i) != Climb(up, up[w], j) {
        assert Climb(up, w, i + 1) != Climb(up, w, j + 1);
      }
      CutsCycle(byId, visiting + {w}, up[w], u, k - 1);
      assert Climb(up, w, 0) != Climb(up, w, k);
    } else {
      assert Climbed(byId, map[], visiting + {u}, up[u]) == [];
    }
  }

  /** Meeting somebody twice leaves a shorter way. */
  lemma ShorterWay(up: Parents, v: string, i: nat, j: nat, k: nat)
    requires i < j <= k && Climb(up, v, i).Some? && Climb(up, v, j).Some?
    ensures Climb(up, v, i) == Climb(up, v, j) ==> Climb(up, v, i + (k - j)) == Climb(up, v, k)
  {
    ClimbPlus(up, v, j, k - j);
    ClimbPlus(up, v, i, k - j);
  }

  /** The shortest way up from `v` to `u` meets nobody twice. */
  lemma ShortestClimb(up: Parents, v: string, u: string, n: nat) returns (k: nat)
    requires Climb(up, v, n) == Some(u)
    ensures Climb(up, v, k) == Some(u)
    ensures forall i: nat, j: nat :: i < j <= k ==> Climb(up, v, i).Some? && Climb(up, v, i) != Climb(up, v, j)
  {
    k := 0;
    while Climb(up, v, k) != Some(u)
      invariant k <= n && forall i: nat :: i < k ==> Climb(up, v, i) != Some(u)
      decreases n - k
    {
      k := k + 1;
    }
    forall i: nat, j: nat | i < j <= k ensures Climb(up, v, i).Some? && Climb(up, v, i) != Climb(up, v, j) {
      ClimbStays(up, v, i, k);
      ClimbStays(up, v, j, k);
      ShorterWay(up, v, i, j, k);
    }
  }

  lemma StoredAfterManager(byId: map<string, User>, u: string)
    requires OnCycle(Managers(byId), u) && u in Managers(byId) && Managers(byId)[u] != u
    ensures var stored := Stored(byId, map[], {}, Managers(byId)[u]); u in stored && stored[u] == [u]
  {
    var up := Managers(byId);
    var n: nat :| n >= 1 && Climb(up, u, n) == Some(u);
    assert Climb(up, up[u], n - 1) == Some(u);
    var k := ShortestClimb(up, up[u], u, n - 1);
    assert Climb(up, up[u], 0) == Some(up[u]);
    CutsCycle(byId, {}, up[u], u, k);
  }

  lemma MovedToFront(users: seq<User>, id: string) returns (moved: seq<User>)
    requires id in Index(Id, users)
    ensures moved != [] && moved[0].id == id && multiset(moved) == multiset(users)
  {
    IndexSound(Id, users);
    var i :| 0 <= i < |users| && users[i] == Index(Id, users)[id];
    assert Id(users[i]) == id;
    moved := [users[i]] + users[..i] + users[i + 1..];
    assert users == users[..i] + ([users[i]] + users[i + 1..]);
    assert multiset(users) == multiset(users[..i]) + (multiset{users[i]} + multiset(users[i + 1..]));
    assert multiset(moved) == multiset{users[i]} + multiset(users[..i]) + multiset(users[i + 1..]);
  }

  /** A longer cycle is cut open below whichever of its users comes first. */
  lemma LongCycleTells(a: seq<User>, u: string) returns (b: seq<User>, c: seq<User>)
    requires DistinctKeys(Id, a)
    requires var up := Managers(Index(Id, a)); OnCycle(up, u) && u in up && up[u] != u
    ensures multiset(b) == multiset(a) && multiset(c) == multiset(a) && PathsOf(b) != PathsOf(c)
  {
    var byId := Index(Id, a);
    var v := Managers(byId)[u];
    b := MovedToFront(a, u);
    c := MovedToFront(a, v);
    SameOrderless(a, b);
    SameOrderless(a, c);
    ClimbsPastItself(byId, u);
    StoredAfterManager(byId, u);
    FirstStays(b, |b|, u);
    FirstStays(c, |c|, u);
  }

  /** The paths are the same for every order in which users with distinct ids are
      listed, exactly when every cycle of managers is someone managing himself. */
  lemma PathsIgnoreOrderIff(a: seq<User>)
    requires DistinctKeys(Id, a)
    ensures (forall b :: multiset(b) == multiset(a) ==> PathsOf(b) == PathsOf(a))
      <==> SelfLoopsOnly(Managers(Index(Id, a)))
  {
    var up := Managers(Index(Id, a));
    if SelfLoopsOnly(up) {
      forall b | multiset(b) == multiset(a) ensures PathsOf(b) == PathsOf(a) { SelfLoopsIgnoreOrder(a, b); }
    } else {
      var u :| OnCycle(up, u) && !(u in up && up[u] == u);
      CycleHasParents(up, u);
      var b, c := LongCycleTells(a, u);
      assert PathsOf(b) != PathsOf(a) || PathsOf(c) != PathsOf(a);
    }
  }

  lemma CycleHasParents(up: Parents, u: string)
    requires OnCycle(up, u)
    ensures u in up
  {
  }

  /** Two users who manage each other: each order gives its own paths. */
  lemma CyclicPathsDiffer()
    ensures var a, b := User("a", "b", []), User("b", "a", []);
      && PathsOf([a, b]) == map["a" := ["b", "a"], "b" := ["b"]]
      && PathsOf([b, a]) == map["a" := ["a"], "b" := ["a", "b"]]
  {
    var a, b := User("a", "b", []), User("b", "a", []);
    MutualPaths(a, b);
    MutualPaths(b, a);
  }

  lemma MutualPaths(a: User, b: User)
    requires a.id != b.id && a.id != "" && b.id != "" && a.manager == b.id && b.manager == a.id
    ensures PathsOf([a, b]) == map[a.id := [b.id, a.id], b.id := [b.id]]
  {
    var byId := map[a.id := a, b.id := b];
    var users := [a, b];
    assert Filled(Id, users, 1) == map[a.id := a];
    assert Index(Id, users) == byId;
    assert Climbed(byId, map[], {a.id} + {b.id}, a.id) == [];
    assert Climbed(byId, map[], {} + {a.id}, b.id) == [b.id];
    assert Climbed(byId, map[], {}, a.id) == [b.id] + [a.id];
    assert Stored(byId, map[], {} + {a.id}, b.id) == map[b.id := [b.id]];
    var first := map[a.id := [b.id, a.id], b.id := [b.id]];
    assert [b.id] + [a.id] == [b.id, a.id];
    assert Stored(byId, map[], {}, a.id) == map[b.id := [b.id]][a.id := [b.id, a.id]];
    assert Stored(byId, map[], {}, a.id) == first;
    assert PathsUpTo(users, 0) == map[] && PathsUpTo(users, 1) == first;
    assert Stored(byId, first, {}, b.id) == first;
  }
}
