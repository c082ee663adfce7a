/** The metadata an identity server runs on: a snapshot of the persisted
    manifest, the roles of the embedding project laid over it, and the tables
    that depend on both. A reload prepares every dependent before it publishes
    anything. */
module MetadataRuntime {
  import opened Options
  import opened Ordering
  import opened Lookup

  datatype Role = Role(key: string, name: string, body: string)

  type Roles = map<string, Role>

  /** `policies` stands for permission sets, groups and guardrails, `rest` for
      objects, actions and names. */
  datatype Snapshot = Snapshot(roles: seq<Role>, policies: string, rest: string)

  function Key(r: Role): string { r.key }

  predicate RoleLe(a: Role, b: Role) {
    StringLe(a.key, b.key)
  }

  /** Building a snapshot sorts the roles by key. */
  function Build(s: Snapshot): Snapshot {
    s.(roles := Sort(RoleLe, s.roles))
  }

  // ---------------------------------------------------------------------
  // The overlay
  // ---------------------------------------------------------------------

  /** Roles under their keys; roles without a key are dropped. */
  function Table(roles: seq<Role>): Roles {
    Index(Key, roles) - {""}
  }

  /** The project's definition wins. */
  function Overlay(source: seq<Role>, project: seq<Role>): Roles {
    Table(source) + Table(project)
  }

  ghost predicate Keyed(table: Roles) {
    forall k :: k in table ==> k != "" && table[k].key == k
  }

  function Values(table: Roles, keys: seq<string>): (roles: seq<Role>)
    requires forall k :: k in keys ==> k in table
    ensures |roles| == |keys| && forall i :: 0 <= i < |keys| ==> roles[i] == table[keys[i]]
  {
    seq(|keys|, i requires 0 <= i < |keys| => table[keys[i]])
  }

  /** The roles of a table in the order of their keys. */
  ghost function ByKey(table: Roles): seq<Role> {
    SortedKeysFacts(table.Keys);
    Values(table, SortedKeys(table.Keys))
  }

  lemma RoleLeRanks()
    ensures Ranking(RoleLe)
  {
    forall x, y ensures RoleLe(x, y) || RoleLe(y, x) { StringLeTotal(x.key, y.key); }
    forall x, y, z | RoleLe(x, y) && RoleLe(y, z) ensures RoleLe(x, z) { StringLeTransitive(x.key, y.key, z.key); }
  }

  lemma TableKeyed(roles: seq<Role>)
    ensures Keyed(Table(roles))
  {
    IndexSound(Key, roles);
  }

  /** A list that holds each role of the table once. */
  ghost predicate Lists(roles: seq<Role>, table: Roles) {
    Distinct(roles) && forall r :: r in roles <==> r.key in table && table[r.key] == r
  }

  lemma ValuesList(table: Roles, keys: seq<string>)
    requires Keyed(table) && Distinct(keys) && forall k :: k in keys <==> k in table
    ensures Lists(Values(table, keys), table)
  {
    var roles := Values(table, keys);
    forall i | 0 <= i < |keys| ensures roles[i].key == keys[i] { assert keys[i] in keys; }
    forall r ensures r in roles <==> r.key in table && table[r.key] == r {
      if r.key in table && table[r.key] == r {
        var i :| 0 <= i < |keys| && keys[i] == r.key;
        assert roles[i] == r;
      }
      if r in roles {
        var i :| 0 <= i < |roles| && roles[i] == r;
        assert keys[i] in keys;
      }
    }
  }

  lemma ValuesSorted(table: Roles, keys: seq<string>)
    requires Keyed(table) && SortedBy(StringLe, keys) && forall k :: k in keys ==> k in table
    ensures SortedBy(RoleLe, Values(table, keys))
  {
    var roles := Values(table, keys);
    forall i | 0 <= i < |keys| ensures roles[i].key == keys[i] { assert keys[i] in keys; }
  }

  lemma ByKeyLists(table: Roles)
    requires Keyed(table)
    ensures Lists(ByKey(table), table) && SortedBy(RoleLe, ByKey(table))
  {
    var keys := SortedKeys(table.Keys);
    SortedKeysFacts(table.Keys);
    DistinctMeansOnce(keys);
    hide Keyed, Lists, SortedBy, Distinct;
    ValuesList(table, keys);
    ValuesSorted(table, keys);
  }

  /** Sorting any such list by key gives the same list. */
  lemma SortedListing(roles: seq<Role>, table: Roles)
    requires Keyed(table) && Lists(roles, table)
    ensures Sort(RoleLe, roles) == ByKey(table)
  {
    RoleLeRanks();
    SortSorts(RoleLe, roles);
    ByKeyLists(table);
    SameMembers(roles, ByKey(table));
    var a := Sort(RoleLe, roles);
    forall x, y | x in a && y in a && RoleLe(x, y) && RoleLe(y, x) ensures x == y { StringLeTotal(x.key, y.key); }
    SortedUnique(RoleLe, a, ByKey(table));
  }

  /** The list can be turned back into its table. */
  lemma TableOfList(roles: seq<Role>, table: Roles)
    requires Keyed(table) && Lists(roles, table)
    ensures Table(roles) == table
  {
    IndexSound(Key, roles);
    forall k | k in table ensures k in Table(roles) { assert table[k] in roles; }
  }

  // ---------------------------------------------------------------------
  // Reload and publication
  // ---------------------------------------------------------------------

  /** Who listens to reloads: the catalog of the identity service, and others. */
  datatype Observer = IdentityCatalog | Dependent(id: nat)

  /** What a dependent makes of a candidate snapshot. */
  datatype Preparation = Refuses | Publishes(value: string) | NothingToPublish

  datatype Commit =
    | RefreshIdentity(roles: seq<Role>, policies: string)
    | Publish(id: nat, value: string)

  /** `table` and `policies` are the identity service's; `dependents` is what
      each other dependent has published. */
  datatype World = World(snapshot: Snapshot, project: seq<Role>, table: Roles, policies: string,
                         dependents: map<nat, string>, observers: seq<Observer>)

  /** The commits of the first `n` observers, unless one of them refuses. */
  ghost function Prepared(observers: seq<Observer>, n: nat, behaviour: (nat, Snapshot) -> Preparation,
                          candidate: Snapshot, project: seq<Role>): Option<seq<Commit>>
    requires n <= |observers|
  {
    if n == 0 then Some([])
    else match Prepared(observers, n - 1, behaviour, candidate, project)
      case None => None
      case Some(commits) =>
        match observers[n - 1]
        case IdentityCatalog =>
          Some(commits + [RefreshIdentity(ByKey(Overlay(candidate.roles, project)), candidate.policies)])
        case Dependent(id) =>
          match behaviour(id, candidate)
          case Refuses => None
          case NothingToPublish => Some(commits)
          case Publishes(value) => Some(commits + [Publish(id, value)])
  }

  function Perform(w: World, c: Commit): World {
    match c
    case RefreshIdentity(roles, policies) => w.(table := Table(roles), policies := policies)
    case Publish(id, value) => w.(dependents := w.dependents[id := value])
  }

  function PerformAll(w: World, commits: seq<Commit>, n: nat): World
    requires n <= |commits|
  {
    if n == 0 then w else Perform(PerformAll(w, commits, n - 1), commits[n - 1])
  }

  /** `loaded` is the persisted manifest when it could be loaded and synchronized. */
  ghost function ReloadIn(w: World, loaded: Option<Snapshot>, behaviour: (nat, Snapshot) -> Preparation): (World, bool)
  {
    match loaded
    case None => (w, false)
    case Some(manifest) =>
      var candidate := Build(manifest);
      match Prepared(w.observers, |w.observers|, behaviour, candidate, w.project)
      case None => (w, false)
      case Some(commits) => (PerformAll(w.(snapshot := Build(candidate)), commits, |commits|), true)
  }

  /** Definitions have a key and a name, and no two the same key. */
  ghost predicate Publishable(definitions: seq<Role>) {
    (forall i :: 0 <= i < |definitions| ==> definitions[i].key != "" && definitions[i].name != "")
    && DistinctKeys(Key, definitions)
  }

  /** `stored`: every role row of the workspace could be written. */
  ghost function PublishIn(w: World, definitions: seq<Role>, stored: bool): (World, bool) {
    if !Publishable(definitions) || !stored then (w, false)
    else
      var project := Sort(RoleLe, definitions);
      (w.(project := project, table := Overlay(w.snapshot.roles, project)), true)
  }

  // ---------------------------------------------------------------------
  // The services
  // ---------------------------------------------------------------------

  class Runtime {
    var snapshot: Snapshot
    var project: seq<Role>

    constructor (manifest: Snapshot)
      ensures snapshot == Build(manifest) && project == []
    {
      snapshot, project := Build(manifest), [];
    }

    method ActivateMetadata(candidate: Snapshot)
      modifies this
      ensures snapshot == Build(candidate) && project == old(project)
    {
      snapshot := Build(candidate);
    }

    method ReplaceProjectRoles(roles: seq<Role>)
      modifies this
      ensures project == Sort(RoleLe, roles) && snapshot == old(snapshot)
    {
      project := Sort(RoleLe, roles);
    }

    /** Collects the overlaid roles by ranging over a map, then sorts them. */
    method EffectiveRoleDefinitions(source: seq<Role>) returns (roles: seq<Role>)
      ensures roles == ByKey(Overlay(source, project))
    {
      var byKey: Roles := map[];
      for i := 0 to |source|
        invariant byKey == Filled(Key, source, i) - {""}
      {
        if source[i].key != "" { byKey := byKey[source[i].key := source[i]]; }
      }
      ghost var sourceTable := byKey;
      for i := 0 to |project|
        invariant byKey == sourceTable + (Filled(Key, project, i) - {""})
      {
        if project[i].key != "" { byKey := byKey[project[i].key := project[i]]; }
      }
      assert byKey == Overlay(source, project);
      TableKeyed(source);
      TableKeyed(project);
      roles := Listed(byKey);
      SortedListing(roles, byKey);
      roles := Sort(RoleLe, roles);
    }
  }

  method Listed(table: Roles) returns (roles: seq<Role>)
    requires Keyed(table)
    ensures Lists(roles, table)
  {
    roles := [];
    var left := table.Keys;
    while left != {}
      invariant left <= table.Keys
      invariant Distinct(roles) && forall r :: r in roles <==> r.key in table && r.key !in left && table[r.key] == r
    {
      var k :| k in left;
      left := left - {k};
      roles := roles + [table[k]];
    }
  }

  class Identity {
    var table: Roles
    var policies: string

    constructor ()
      ensures table == map[]
    {
      table, policies := map[], "";
    }

    method ReplaceRoleDefinitions(roles: seq<Role>)
      modifies this
      ensures table == Table(roles) && policies == old(policies)
    {
      table := map[];
      for i := 0 to |roles|
        invariant table == Filled(Key, roles, i) - {""} && policies == old(policies)
      {
        if roles[i].key != "" { table := table[roles[i].key := roles[i]]; }
      }
    }

    method ReplaceAuthorizationPolicies(policies: string)
      modifies this
      ensures this.policies == policies && table == old(table)
    {
      this.policies := policies;
    }
  }

  // ---------------------------------------------------------------------
  // The metadata service
  // ---------------------------------------------------------------------

  /** The service with everything it publishes to. One reload or publication
      runs at a time. */
  class Metadata {
    const runtime: Runtime
    const identity: Identity
    var dependents: map<nat, string>
    var observers: seq<Observer>

    constructor (manifest: Snapshot)
      ensures fresh(runtime) && fresh(identity)
      ensures Current() == World(Build(manifest), [], map[], identity.policies, map[], [])
    {
      runtime := new Runtime(manifest);
      identity := new Identity();
      dependents, observers := map[], [];
    }

    function Current(): World
      reads this, runtime, identity
    {
      World(runtime.snapshot, runtime.project, identity.table, identity.policies, dependents, observers)
    }

    method AddReloadObserver(observer: Observer)
      modifies this
      ensures Current() == old(Current()).(observers := old(observers) + [observer])
    {
      observers := observers + [observer];
    }

    /** Asks every observer in turn; publishes nothing. */
    method PrepareReloadObservers(candidate: Snapshot, behaviour: (nat, Snapshot) -> Preparation)
      returns (commits: Option<seq<Commit>>)
      ensures commits == Prepared(observers, |observers|, behaviour, candidate, runtime.project)
    {
      hide ByKey, Overlay;
      ghost var project := runtime.project;
      var list: seq<Commit> := [];
      for i := 0 to |observers|
        invariant Prepared(observers, i, behaviour, candidate, project) == Some(list)
      {
        PreparedNext(observers, i, behaviour, candidate, project);
        hide Prepared;
        match observers[i] {
          case IdentityCatalog =>
            var roles := runtime.EffectiveRoleDefinitions(candidate.roles);
            list := list + [RefreshIdentity(roles, candidate.policies)];
          case Dependent(id) =>
            match behaviour(id, candidate) {
              case Refuses =>
                NothingPreparedAfter(observers, i + 1, behaviour, candidate, project);
                return None;
              case NothingToPublish =>
              case Publishes(value) => list := list + [Publish(id, value)];
            }
        }
      }
      return Some(list);
    }

    method Commit(c: Commit)
      modifies this, identity
      ensures Current() == Perform(old(Current()), c)
    {
      match c {
        case RefreshIdentity(roles, policies) =>
          identity.ReplaceRoleDefinitions(roles);
          identity.ReplaceAuthorizationPolicies(policies);
        case Publish(id, value) =>
          dependents := dependents[id := value];
      }
    }

    /** Loads, prepares, and only then activates and commits. Gives the snapshot
        now active: the new one, or on failure the one that was. */
    method ReloadMetadata(loaded: Option<Snapshot>, behaviour: (nat, Snapshot) -> Preparation)
      returns (active: Snapshot, ok: bool)
      modifies this, runtime, identity
      ensures (Current(), ok) == ReloadIn(old(Current()), loaded, behaviour)
      ensures if ok then loaded.Some? && active == Build(loaded.value) else active == old(runtime.snapshot)
    {
      active, ok := runtime.snapshot, false;
      if loaded == None { return; }
      var candidate := Build(loaded.value);
      var commits := PrepareReloadObservers(candidate, behaviour);
      if commits == None { return; }
      runtime.ActivateMetadata(candidate);
      ghost var activated := Current();
      for i := 0 to |commits.value|
        invariant Current() == PerformAll(activated, commits.value, i)
      {
        Commit(commits.value[i]);
      }
      return candidate, true;
    }

    method PublishProjectRoles(definitions: seq<Role>, stored: bool) returns (ok: bool)
      modifies runtime, identity
      ensures (Current(), ok) == PublishIn(old(Current()), definitions, stored)
    {
      ok := CheckDefinitions(definitions);
      if !ok { return; }
      if !stored { return false; }
      runtime.ReplaceProjectRoles(definitions);
      var roles := runtime.EffectiveRoleDefinitions(runtime.snapshot.roles);
      OverlayKeyed(runtime.snapshot.roles, runtime.project);
      ByKeyLists(Overlay(runtime.snapshot.roles, runtime.project));
      TableOfList(roles, Overlay(runtime.snapshot.roles, runtime.project));
      identity.ReplaceRoleDefinitions(roles);
    }
  }

  method CheckDefinitions(definitions: seq<Role>) returns (ok: bool)
    ensures ok <==> Publishable(definitions)
  {
    var seen: set<string> := {};
    for i := 0 to |definitions|
      invariant forall k :: 0 <= k < i ==> definitions[k].key != "" && definitions[k].name != ""
      invariant forall k :: k in seen <==> exists j :: 0 <= j < i && definitions[j].key == k
      invariant forall j, k :: 0 <= j < k < i ==> definitions[j].key != definitions[k].key
    {
      var d := definitions[i];
      if d.key == "" || d.name == "" { return false; }
      if d.key in seen {
        var j :| 0 <= j < i && definitions[j].key == d.key;
        assert Key(definitions[j]) == Key(definitions[i]);
        return false;
      }
      seen := seen + {d.key};
    }
    return true;
  }

  lemma OverlayKeyed(source: seq<Role>, project: seq<Role>)
    ensures Keyed(Overlay(source, project))
  {
    TableKeyed(source);
    TableKeyed(project);
  }

  lemma PreparedNext(observers: seq<Observer>, n: nat, behaviour: (nat, Snapshot) -> Preparation,
                     candidate: Snapshot, project: seq<Role>)
    requires n < |observers| && Prepared(observers, n, behaviour, candidate, project).Some?
    ensures var before := Prepared(observers, n, behaviour, candidate, project).value;
      Prepared(observers, n + 1, behaviour, candidate, project) ==
        match observers[n]
        case IdentityCatalog =>
          Some(before + [RefreshIdentity(ByKey(Overlay(candidate.roles, project)), candidate.policies)])
        case Dependent(id) =>
          match behaviour(id, candidate)
          case Refuses => None
          case NothingToPublish => Some(before)
          case Publishes(value) => Some(before + [Publish(id, value)])
  {
  }

  lemma {:induction false} NothingPreparedAfter(observers: seq<Observer>, n: nat,
                                                behaviour: (nat, Snapshot) -> Preparation, candidate: Snapshot,
                                                project: seq<Role>)
    requires n <= |observers| && Prepared(observers, n, behaviour, candidate, project) == None
    ensures Prepared(observers, |observers|, behaviour, candidate, project) == None
    decreases |observers| - n
  {
    if n < |observers| { NothingPreparedAfter(observers, n + 1, behaviour, candidate, project); }
  }

  // ---------------------------------------------------------------------
  // Runs
  // ---------------------------------------------------------------------

  datatype Step =
    | Reload(loaded: Option<Snapshot>, behaviour: (nat, Snapshot) -> Preparation)
    | Publication(definitions: seq<Role>, stored: bool)
    | Observe(observer: Observer)

  ghost function Next(w: World, step: Step): World {
    match step
    case Reload(loaded, behaviour) => ReloadIn(w, loaded, behaviour).0
    case Publication(definitions, stored) => PublishIn(w, definitions, stored).0
    case Observe(observer) => w.(observers := w.observers + [observer])
  }

  ghost function Run(w: World, steps: seq<Step>): World {
    if steps == [] then w else Next(Run(w, steps[..|steps| - 1]), steps[|steps| - 1])
  }

  /** The identity service's roles and policies are those of the active snapshot
      with the project's roles laid over them. */
  ghost predicate Agrees(w: World) {
    w.table == Overlay(w.snapshot.roles, w.project) && w.policies == w.snapshot.policies
  }

  /** Which definition a key finds: the project's if it has one. */
  lemma ProjectWins(w: World, key: string)
    requires Agrees(w)
    ensures key in w.table <==> key != "" && ((exists r :: r in w.project && r.key == key)
                                              || (exists r :: r in w.snapshot.roles && r.key == key))
    ensures key in w.table && (exists r :: r in w.project && r.key == key) ==> w.table[key] in w.project
    ensures key in w.table && !(exists r :: r in w.project && r.key == key) ==> w.table[key] in w.snapshot.roles
    ensures key in w.table ==> w.table[key].key == key
  {
    IndexSound(Key, w.project);
    IndexSound(Key, w.snapshot.roles);
    hide Index;
    forall r: Role | r in w.project && r.key == key ensures key in Index(Key, w.project) { assert Key(r) == key; }
    forall r: Role | r in w.snapshot.roles && r.key == key
      ensures key in Index(Key, w.snapshot.roles)
    {
      assert Key(r) == key;
    }
    if key in Index(Key, w.project) { assert Index(Key, w.project)[key].key == key; }
    if key in Index(Key, w.snapshot.roles) { assert Index(Key, w.snapshot.roles)[key].key == key; }
  }

  /** Each definition has a key and a name, and a key of its own. */
  ghost predicate Acceptable(definitions: seq<Role>) {
    && (forall d :: d in definitions ==> d.key != "" && d.name != "")
    && (forall i, j :: 0 <= i < j < |definitions| ==> definitions[i].key != definitions[j].key)
  }

  /** Each published definition is what its key finds, and every other key finds the
      definition of the snapshot, if that has one. */
  ghost predicate FindsPublished(table: Roles, source: seq<Role>, definitions: seq<Role>) {
    && (forall d :: d in definitions ==> d.key in table && table[d.key] == d)
    && (forall k :: k in table && (forall d :: d in definitions ==> d.key != k) ==>
          table[k] in source && table[k].key == k)
    && (forall r :: r in source && r.key != "" ==> r.key in table)
  }

  /** A publication succeeds exactly when its definitions are acceptable and the
      role rows can be stored; it then replaces what the project published before,
      and otherwise changes nothing. */
  lemma PublishedAreFound(w: World, definitions: seq<Role>, stored: bool)
    ensures var (t, ok) := PublishIn(w, definitions, stored);
      && (ok <==> stored && Acceptable(definitions))
      && (ok ==> FindsPublished(t.table, w.snapshot.roles, definitions)
                 && t == w.(project := t.project, table := t.table))
      && (!ok ==> t == w)
  {
    PublishableIff(definitions);
    if Publishable(definitions) { FoundAfterPublication(w.snapshot.roles, definitions); }
    hide Publishable, Acceptable, FindsPublished, Overlay;
  }

  lemma PublishableIff(definitions: seq<Role>)
    ensures Publishable(definitions) <==> Acceptable(definitions)
  {
    if Publishable(definitions) {
      forall i, j | 0 <= i < j < |definitions| ensures definitions[i].key != definitions[j].key {
        assert Key(definitions[i]) != Key(definitions[j]);
      }
    }
  }

  lemma FoundAfterPublication(source: seq<Role>, definitions: seq<Role>)
    requires Publishable(definitions)
    ensures FindsPublished(Overlay(source, Sort(RoleLe, definitions)), source, definitions)
  {
    var project := Sort(RoleLe, definitions);
    RoleLeRanks();
    SortSorts(RoleLe, definitions);
    SameBag(definitions, project);
    DistinctKeysIgnoreOrder(Key, definitions, project);
    IndexIgnoresOrder(Key, definitions, project);
    hide Sort, RoleLe, DistinctKeys;
    OverlayFinds(source, project, definitions);
  }

  lemma OverlayFinds(source: seq<Role>, project: seq<Role>, definitions: seq<Role>)
    requires Publishable(definitions) && Index(Key, project) == Index(Key, definitions)
    ensures FindsPublished(Overlay(source, project), source, definitions)
  {
    assert Overlay(source, project) == Table(source) + Table(definitions);
    SourceTabled(source);
    DefinitionsTabled(definitions);
    hide Table, Publishable, Overlay;
  }

  lemma SourceTabled(source: seq<Role>)
    ensures var table := Table(source);
      && (forall k :: k in table ==> table[k] in source && table[k].key == k)
      && (forall r :: r in source && r.key != "" ==> r.key in table)
  {
    IndexSound(Key, source);
    forall r: Role | r in source ensures r.key in Index(Key, source) { assert Key(r) == r.key; }
    hide Index;
  }

  lemma DefinitionsTabled(definitions: seq<Role>)
    requires Publishable(definitions)
    ensures var table := Table(definitions);
      && (forall d :: d in definitions ==> d.key in table && table[d.key] == d)
      && (forall k :: k in table ==> exists d :: d in definitions && d.key == k)
  {
    IndexSound(Key, definitions);
    DefinitionsIndexed(definitions);
    forall k | k in Table(definitions) ensures exists d :: d in definitions && d.key == k {
      assert Key(Index(Key, definitions)[k]) == k;
    }
    hide Index, Publishable;
  }

  lemma DefinitionsIndexed(definitions: seq<Role>)
    requires Publishable(definitions)
    ensures forall d :: d in definitions ==>
      d.key != "" && d.key in Index(Key, definitions) && Index(Key, definitions)[d.key] == d
  {
    forall d: Role | d in definitions
      ensures d.key != "" && d.key in Index(Key, definitions) && Index(Key, definitions)[d.key] == d
    {
      IndexFinds(Key, definitions, d);
      var i :| 0 <= i < |definitions| && definitions[i] == d;
    }
  }

  lemma {:induction false} PerformPrefix(w: World, commits: seq<Commit>, c: Commit, n: nat)
    requires n <= |commits|
    ensures PerformAll(w, commits + [c], n) == PerformAll(w, commits, n)
  {
    if n > 0 { PerformPrefix(w, commits, c, n - 1); }
  }

  lemma PerformOneMore(w: World, commits: seq<Commit>, c: Commit)
    ensures PerformAll(w, commits + [c], |commits| + 1) == Perform(PerformAll(w, commits, |commits|), c)
  {
    PerformPrefix(w, commits, c, |commits|);
  }

  lemma ListedBack(source: seq<Role>, project: seq<Role>)
    ensures Table(ByKey(Overlay(source, project))) == Overlay(source, project)
  {
    OverlayKeyed(source, project);
    ByKeyLists(Overlay(source, project));
    TableOfList(ByKey(Overlay(source, project)), Overlay(source, project));
  }

  /** What the other dependents have published after the first `n` observers. */
  function Published(dependents: map<nat, string>, observers: seq<Observer>, n: nat,
                     behaviour: (nat, Snapshot) -> Preparation, candidate: Snapshot): map<nat, string>
    requires n <= |observers|
  {
    if n == 0 then dependents
    else
      var before := Published(dependents, observers, n - 1, behaviour, candidate);
      match observers[n - 1]
      case IdentityCatalog => before
      case Dependent(id) =>
        match behaviour(id, candidate)
        case Publishes(value) => before[id := value]
        case _ => before
  }

  /** Performing the prepared commits refreshes the identity service exactly when
      it listens, publishes what the dependents prepared, and nothing else. */
  lemma {:induction false} Performed(w: World, n: nat, behaviour: (nat, Snapshot) -> Preparation, candidate: Snapshot)
    requires n <= |w.observers| && Prepared(w.observers, n, behaviour, candidate, w.project).Some?
    ensures var commits := Prepared(w.observers, n, behaviour, candidate, w.project).value;
      PerformAll(w, commits, |commits|) ==
        w.(table := if IdentityCatalog in w.observers[..n] then Overlay(candidate.roles, w.project) else w.table,
           policies := if IdentityCatalog in w.observers[..n] then candidate.policies else w.policies,
           dependents := Published(w.dependents, w.observers, n, behaviour, candidate))
  {
    hide Overlay, ByKey, Table;
    if n > 0 {
      var before := Prepared(w.observers, n - 1, behaviour, candidate, w.project).value;
      Performed(w, n - 1, behaviour, candidate);
      assert w.observers[..n] == w.observers[..n - 1] + [w.observers[n - 1]];
      match w.observers[n - 1] {
        case IdentityCatalog =>
          ListedBack(candidate.roles, w.project);
          PerformOneMore(w, before, RefreshIdentity(ByKey(Overlay(candidate.roles, w.project)), candidate.policies));
        case Dependent(id) =>
          match behaviour(id, candidate) {
            case Publishes(value) => PerformOneMore(w, before, Publish(id, value));
            case NothingToPublish =>
          }
      }
    }
  }

  /** Activation builds the candidate again, which changes nothing. */
  lemma BuildTwice(manifest: Snapshot)
    ensures Build(Build(manifest)) == Build(manifest)
  {
    RoleLeRanks();
    SortSorts(RoleLe, manifest.roles);
    SortIdempotent(RoleLe, Sort(RoleLe, manifest.roles));
  }

  /** Building keeps everything of a manifest and only brings its roles into the
      order of their keys. */
  lemma BuildKeeps(manifest: Snapshot)
    ensures var built := Build(manifest);
      && multiset(built.roles) == multiset(manifest.roles) && SortedBy(RoleLe, built.roles)
      && built.policies == manifest.policies && built.rest == manifest.rest
  {
    RoleLeRanks();
    SortSorts(RoleLe, manifest.roles);
  }

  /** Each dependent that listens has what it made of the candidate published, if it
      made something; everything else that was published stays. */
  lemma {:induction false} PublishedByDependents(dependents: map<nat, string>, observers: seq<Observer>, n: nat,
                                                 behaviour: (nat, Snapshot) -> Preparation, candidate: Snapshot,
                                                     id: nat)
    requires n <= |observers|
    ensures Get(Published(dependents, observers, n, behaviour, candidate), id) ==
      if Dependent(id) in observers[..n] && behaviour(id, candidate).Publishes?
          then Some(behaviour(id, candidate).value)
      else Get(dependents, id)
  {
    if n > 0 {
      PublishedByDependents(dependents, observers, n - 1, behaviour, candidate, id);
      assert observers[..n] == observers[..n - 1] + [observers[n - 1]];
    }
  }

  /** A reload that succeeds leaves the identity service in agreement with the
      snapshot it activated, whatever was there before; every dependent has
      published what it prepared for that snapshot. */
  lemma ReloadBringsAgreement(w: World, loaded: Option<Snapshot>, behaviour: (nat, Snapshot) -> Preparation)
    requires ReloadIn(w, loaded, behaviour).1
    ensures loaded.Some?
    ensures var t := ReloadIn(w, loaded, behaviour).0;
      && t.snapshot == Build(loaded.value) && t.project == w.project && t.observers == w.observers
      && t.dependents == Published(w.dependents, w.observers, |w.observers|, behaviour, t.snapshot)
      && (IdentityCatalog in w.observers ==> Agrees(t))
  {
    var candidate := Build(loaded.value);
    BuildTwice(loaded.value);
    var activated := w.(snapshot := candidate);
    Performed(activated, |w.observers|, behaviour, candidate);
    assert w.observers[..|w.observers|] == w.observers;
  }

  lemma StepKeepsAgreement(w: World, step: Step)
    requires IdentityCatalog in w.observers && Agrees(w)
    ensures IdentityCatalog in Next(w, step).observers && Agrees(Next(w, step))
  {
    match step
    case Reload(loaded, behaviour) =>
      if ReloadIn(w, loaded, behaviour).1 { ReloadBringsAgreement(w, loaded, behaviour); }
    case Publication(definitions, stored) =>
    case Observe(observer) => assert w.observers <= Next(w, step).observers;
  }

  /** From the first reload that succeeds on, after any further reloads, failed
      or not, publications and new observers, identity's role table is the
      active snapshot's roles overlaid by the project's. */
  lemma {:induction false} EveryRunAgrees(w: World, loaded: Option<Snapshot>,
                                          behaviour: (nat, Snapshot) -> Preparation, steps: seq<Step>)
    requires IdentityCatalog in w.observers && ReloadIn(w, loaded, behaviour).1
    ensures var t := Run(ReloadIn(w, loaded, behaviour).0, steps); IdentityCatalog in t.observers && Agrees(t)
  {
    if steps == [] {
      ReloadBringsAgreement(w, loaded, behaviour);
    } else {
      EveryRunAgrees(w, loaded, behaviour, steps[..|steps| - 1]);
      StepKeepsAgreement(Run(ReloadIn(w, loaded, behaviour).0, steps[..|steps| - 1]), steps[|steps| - 1]);
    }
  }

  /** A reload succeeds exactly when the manifest could be loaded and no observer
      refuses it. Otherwise it changes nothing at all. */
  lemma {:induction false} PreparedIff(observers: seq<Observer>, n: nat, behaviour: (nat, Snapshot) -> Preparation,
                                       candidate: Snapshot, project: seq<Role>)
    requires n <= |observers|
    ensures Prepared(observers, n, behaviour, candidate, project).Some? <==>
      forall i :: 0 <= i < n && observers[i].Dependent? ==> !behaviour(observers[i].id, candidate).Refuses?
  {
    hide Overlay, ByKey;
    if n > 0 { PreparedIff(observers, n - 1, behaviour, candidate, project); }
  }

  lemma ReloadSucceedsIff(w: World, loaded: Option<Snapshot>, behaviour: (nat, Snapshot) -> Preparation)
    ensures ReloadIn(w, loaded, behaviour).1 <==>
      loaded.Some? && forall i :: 0 <= i < |w.observers| && w.observers[i].Dependent? ==>
        !behaviour(w.observers[i].id, Build(loaded.value)).Refuses?
    ensures !ReloadIn(w, loaded, behaviour).1 ==> ReloadIn(w, loaded, behaviour).0 == w
  {
    if loaded.Some? { PreparedIff(w.observers, |w.observers|, behaviour, Build(loaded.value), w.project); }
  }
}
