/** Account usage of workspaces: groups of accounts, as a repository counts them,
    are folded in place into one row of counters a workspace. Unknown
    workspaces, repeated groups and impossible counts are refused. */
module UsageCounts {
  import opened Options
  import opened Ordering

  datatype AccountType = Human | Service | Automation | UnknownType(name: string)
  datatype Status = Active | Disabled | Deleted | UnknownStatus(name: string)

  datatype Group = Group(workspace: string, accountType: AccountType, status: Status, count: int)

  /** How many active human accounts of a workspace hold an active role. */
  datatype RoleCount = RoleCount(workspace: string, count: int)

  datatype Usage = Usage(workspace: string, activeHumans: int, disabledHumans: int, services: int, automations: int,
                         activeHumansWithRole: int)

  datatype Error = AggregateInvalid | TypeInvalid | StatusInvalid

  type Key = (string, AccountType, Status)

  function KeyOf(g: Group): Key {
    (g.workspace, g.accountType, g.status)
  }

  // ---------------------------------------------------------------------
  // Which groups are accepted
  // ---------------------------------------------------------------------

  /** What is wrong with one group, after groups with the keys in `seen`. */
  function GroupError(known: set<string>, seen: set<Key>, g: Group): Option<Error> {
    if g.workspace !in known || g.count < 1 then Some(AggregateInvalid)
    else if KeyOf(g) in seen then Some(AggregateInvalid)
    else if g.accountType.UnknownType? then Some(TypeInvalid)
    else if g.status.UnknownStatus? then Some(StatusInvalid)
    else None
  }

  ghost predicate Sound(known: set<string>, g: Group) {
    g.workspace in known && g.count >= 1 && !g.accountType.UnknownType? && !g.status.UnknownStatus?
  }

  /** Every group is sound, and no two are about the same accounts. */
  ghost predicate Accepted(known: set<string>, groups: seq<Group>) {
    && (forall g :: g in groups ==> Sound(known, g))
    && (forall i, j :: 0 <= i < j < |groups| ==> KeyOf(groups[i]) != KeyOf(groups[j]))
  }

  // ---------------------------------------------------------------------
  // What the counters are supposed to hold
  // ---------------------------------------------------------------------

  /** The total count of the first `n` groups that are wanted. */
  function Total(wanted: Group -> bool, groups: seq<Group>, n: nat): int
    requires n <= |groups|
  {
    if n == 0 then 0 else Total(wanted, groups, n - 1) + if wanted(groups[n - 1]) then groups[n - 1].count else 0
  }

  function Of(workspace: string, accountType: AccountType, status: Status): Group -> bool {
    (g: Group) => g.workspace == workspace && g.accountType == accountType && g.status == status
  }

  function Undeleted(workspace: string): Group -> bool {
    (g: Group) => g.workspace == workspace && g.status != Deleted
  }

  function UndeletedOf(workspace: string, accountType: AccountType): Group -> bool {
    (g: Group) => g.workspace == workspace && g.accountType == accountType && g.status != Deleted
  }

  function UsageOf(workspace: string, groups: seq<Group>, n: nat): Usage
    requires n <= |groups|
  {
    Usage(workspace,
          Total(Of(workspace, Human, Active), groups, n),
          Total(Of(workspace, Human, Disabled), groups, n),
          Total(UndeletedOf(workspace, Service), groups, n),
          Total(UndeletedOf(workspace, Automation), groups, n),
          0)
  }

  /** The row after one more group. */
  function Counted(row: Usage, g: Group): Usage {
    if g.status == Deleted then row
    else match g.accountType
      case Human =>
        if g.status == Active then row.(activeHumans := row.activeHumans + g.count)
        else row.(disabledHumans := row.disabledHumans + g.count)
      case Service => row.(services := row.services + g.count)
      case Automation => row.(automations := row.automations + g.count)
      case UnknownType(_) => row
  }

  lemma CountedIsNext(workspace: string, groups: seq<Group>, n: nat, known: set<string>)
    requires n < |groups| && Sound(known, groups[n])
    ensures UsageOf(workspace, groups, n + 1)
      == if groups[n].workspace == workspace then Counted(UsageOf(workspace, groups, n), groups[n])
         else UsageOf(workspace, groups, n)
  {
  }

  lemma TotalOfOne(wanted: Group -> bool, g: Group)
    ensures Total(wanted, [g], 1) == if wanted(g) then g.count else 0
  {
    assert Total(wanted, [g], 0) == 0;
  }

  /** Which counter a group of accounts belongs to: deleted accounts to none. */
  lemma GroupCountsTo(workspace: string, g: Group)
    requires g.workspace == workspace && !g.accountType.UnknownType? && !g.status.UnknownStatus?
    ensures var row := UsageOf(workspace, [g], 1);
      && row.activeHumans == (if g.accountType == Human && g.status == Active then g.count else 0)
      && row.disabledHumans == (if g.accountType == Human && g.status == Disabled then g.count else 0)
      && row.services == (if g.accountType == Service && g.status != Deleted then g.count else 0)
      && row.automations == (if g.accountType == Automation && g.status != Deleted then g.count else 0)
      && row.activeHumansWithRole == 0 && row.workspace == workspace
  {
    TotalOfOne(Of(workspace, Human, Active), g);
    TotalOfOne(Of(workspace, Human, Disabled), g);
    TotalOfOne(UndeletedOf(workspace, Service), g);
    TotalOfOne(UndeletedOf(workspace, Automation), g);
  }

  /** Each error says what is wrong with a group. */
  lemma GroupErrorsTell(known: set<string>, seen: set<Key>, g: Group)
    ensures var usable := g.workspace in known && g.count >= 1
                         && (g.workspace, g.accountType, g.status) !in seen;
      && (GroupError(known, seen, g) == Some(AggregateInvalid) <==> !usable)
      && (GroupError(known, seen, g) == Some(TypeInvalid) <==> usable && g.accountType.UnknownType?)
      && (GroupError(known, seen, g) == Some(StatusInvalid) <==>
            usable && !g.accountType.UnknownType? && g.status.UnknownStatus?)
  {
  }

  // ---------------------------------------------------------------------
  // The fold
  // ---------------------------------------------------------------------

  /** Where each workspace's row is. */
  ghost predicate Indexes(index: map<string, nat>, rows: seq<Usage>) {
    && (forall w :: w in index ==> index[w] < |rows| && rows[index[w]].workspace == w)
    && (forall i :: 0 <= i < |rows| ==> rows[i].workspace in index && index[rows[i].workspace] == i)
  }

  /** Every row holds its counts of the first `n` groups. */
  ghost predicate Rows(rows: seq<Usage>, groups: seq<Group>, n: nat)
    requires n <= |groups|
  {
    forall i :: 0 <= i < |rows| ==> rows[i] == UsageOf(rows[i].workspace, groups, n)
  }

  ghost predicate SeenUpTo(seen: set<Key>, groups: seq<Group>, n: nat)
    requires n <= |groups|
  {
    forall k :: k in seen <==> exists i :: 0 <= i < n && KeyOf(groups[i]) == k
  }

  lemma SeenNext(seen: set<Key>, groups: seq<Group>, n: nat)
    requires n < |groups| && SeenUpTo(seen, groups, n)
    ensures SeenUpTo(seen + {KeyOf(groups[n])}, groups, n + 1)
    ensures KeyOf(groups[n]) in seen <==> exists i :: 0 <= i < n && KeyOf(groups[i]) == KeyOf(groups[n])
  {
  }

  lemma AcceptedNext(known: set<string>, seen: set<Key>, groups: seq<Group>, n: nat)
    requires n < |groups| && SeenUpTo(seen, groups, n) && Accepted(known, groups[..n])
    ensures Accepted(known, groups[..n + 1]) <==> GroupError(known, seen, groups[n]) == None
  {
    var g, more := groups[n], groups[..n + 1];
    SeenNext(seen, groups, n);
    assert more[n] == g && forall i :: 0 <= i < n ==> more[i] == groups[i] == groups[..n][i];
    if GroupError(known, seen, g) == None {
      forall x | x in more ensures Sound(known, x) { if x != g { assert x in groups[..n]; } }
    } else if Sound(known, g) {
      var i :| 0 <= i < n && KeyOf(groups[i]) == KeyOf(g);
      assert KeyOf(more[i]) == KeyOf(more[n]);
    } else {
      assert more[n] in more;
    }
  }

  lemma AcceptedPrefix(known: set<string>, groups: seq<Group>, n: nat)
    requires n <= |groups| && Accepted(known, groups)
    ensures Accepted(known, groups[..n])
  {
    forall i | 0 <= i < n ensures groups[..n][i] == groups[i] {}
  }

  lemma RowsNext(rows: seq<Usage>, next: seq<Usage>, index: map<string, nat>, groups: seq<Group>, n: nat)
    requires n < |groups| && Rows(rows, groups, n) && Indexes(index, rows) && Sound(index.Keys, groups[n])
    requires var at := index[groups[n].workspace]; next == rows[at := Counted(rows[at], groups[n])]
    ensures Rows(next, groups, n + 1) && Indexes(index, next)
  {
    hide UsageOf;
    var at := index[groups[n].workspace];
    assert Counted(rows[at], groups[n]).workspace == rows[at].workspace;
    forall i | 0 <= i < |next| ensures next[i] == UsageOf(next[i].workspace, groups, n + 1) {
      CountedIsNext(rows[i].workspace, groups, n, index.Keys);
    }
  }

  /** The k-th group is at fault, and none before it. */
  ghost predicate FirstFault(known: set<string>, groups: seq<Group>, k: nat, error: Option<Error>) {
    && k < |groups| && Accepted(known, groups[..k])
    && error == GroupError(known, set i | 0 <= i < k :: KeyOf(groups[i]), groups[k])
  }

  lemma FaultHere(known: set<string>, seen: set<Key>, groups: seq<Group>, n: nat)
    requires n < |groups| && SeenUpTo(seen, groups, n) && Accepted(known, groups[..n])
    ensures var error := GroupError(known, seen, groups[n]);
      error.Some? ==> !Accepted(known, groups) && FirstFault(known, groups, n, error)
  {
    hide Accepted;
    SeenIs(seen, groups, n);
    AcceptedNext(known, seen, groups, n);
    if Accepted(known, groups) { AcceptedPrefix(known, groups, n + 1); }
  }

  /** Folds groups into the rows in place, or names the first fault it meets. */
  method ApplyGroups(items: array<Usage>, index: map<string, nat>, groups: seq<Group>) returns (error: Option<Error>)
    requires Indexes(index, items[..])
    requires forall i :: 0 <= i < items.Length ==> items[i] == Usage(items[i].workspace, 0, 0, 0, 0, 0)
    modifies items
    ensures error == None <==> Accepted(index.Keys, groups)
    ensures error == None ==> Indexes(index, items[..]) && Rows(items[..], groups, |groups|)
    ensures error.Some? ==> exists k :: FirstFault(index.Keys, groups, k, error)
  {
    var seen: set<Key> := {};
    for n := 0 to |groups|
      invariant SeenUpTo(seen, groups, n) && Accepted(index.Keys, groups[..n])
      invariant Indexes(index, items[..]) && Rows(items[..], groups, n)
    {
      hide Rows, Indexes, SeenUpTo, Accepted, FirstFault;
      var g := groups[n];
      ghost var rows := items[..];
      AcceptedNext(index.Keys, seen, groups, n);
      FaultHere(index.Keys, seen, groups, n);
      if g.workspace !in index || g.count < 1 { return Some(AggregateInvalid); }
      if KeyOf(g) in seen { return Some(AggregateInvalid); }
      SeenNext(seen, groups, n);
      seen := seen + {KeyOf(g)};
      if g.accountType.UnknownType? { return Some(TypeInvalid); }
      if g.status.UnknownStatus? { return Some(StatusInvalid); }
      var at := index[g.workspace];
      InRange(index, rows, g.workspace);
      RowsNext(rows, rows[at := Counted(rows[at], g)], index, groups, n);
      items[at] := Counted(items[at], g);
      assert items[..] == rows[at := Counted(rows[at], g)];
    }
    assert groups[..|groups|] == groups;
    return None;
  }

  lemma InRange(index: map<string, nat>, rows: seq<Usage>, w: string)
    requires Indexes(index, rows) && w in index
    ensures index[w] < |rows|
  {
  }

  lemma SeenIs(seen: set<Key>, groups: seq<Group>, n: nat)
    requires n <= |groups| && SeenUpTo(seen, groups, n)
    ensures seen == set i | 0 <= i < n :: KeyOf(groups[i])
  {
  }

  // ---------------------------------------------------------------------
  // Accounts with a role
  // ---------------------------------------------------------------------

  function CountOf(workspace: string, counts: seq<RoleCount>, n: nat): int
    requires n <= |counts|
  {
    if n == 0 then 0
    else if counts[n - 1].workspace == workspace then counts[n - 1].count
    else CountOf(workspace, counts, n - 1)
  }

  /** Counts of different workspaces are each found under their own, and nothing is
      found for a workspace without one. */
  lemma {:induction false} CountsAreFound(counts: seq<RoleCount>, workspace: string, n: nat)
    requires n <= |counts| && forall i, j :: 0 <= i < j < |counts| ==> counts[i].workspace != counts[j].workspace
    ensures forall i :: 0 <= i < n && counts[i].workspace == workspace ==>
      CountOf(workspace, counts, n) == counts[i].count
    ensures (forall i :: 0 <= i < n ==> counts[i].workspace != workspace) ==> CountOf(workspace, counts, n) == 0
  {
    if n > 0 { CountsAreFound(counts, workspace, n - 1); }
  }

  ghost predicate Plausible(index: map<string, nat>, rows: seq<Usage>, c: RoleCount)
    requires Indexes(index, rows)
  {
    c.workspace in index && 1 <= c.count <= rows[index[c.workspace]].activeHumans
  }

  ghost predicate RolesAccepted(index: map<string, nat>, rows: seq<Usage>, counts: seq<RoleCount>, n: nat)
    requires Indexes(index, rows) && n <= |counts|
  {
    && (forall i :: 0 <= i < n ==> Plausible(index, rows, counts[i]))
    && (forall i, j :: 0 <= i < j < n ==> counts[i].workspace != counts[j].workspace)
  }

  /** The rows as they were, with the counts of accounts that hold a role. */
  ghost predicate WithRoles(before: seq<Usage>, now: seq<Usage>, counts: seq<RoleCount>, n: nat)
    requires n <= |counts|
  {
    |now| == |before| && forall i :: 0 <= i < |before| ==>
      now[i] == before[i].(activeHumansWithRole := CountOf(before[i].workspace, counts, n))
  }

  ghost predicate WorkspacesSeen(seen: set<string>, counts: seq<RoleCount>, n: nat)
    requires n <= |counts|
  {
    forall w :: w in seen <==> exists i :: 0 <= i < n && counts[i].workspace == w
  }

  lemma RolesNext(index: map<string, nat>, before: seq<Usage>, now: seq<Usage>, counts: seq<RoleCount>, n: nat,
                  seen: set<string>)
    requires n < |counts| && Indexes(index, before) && WithRoles(before, now, counts, n)
      && WorkspacesSeen(seen, counts, n)
    requires RolesAccepted(index, before, counts, n)
    ensures var c := counts[n];
      (RolesAccepted(index, before, counts, n + 1) <==> Plausible(index, before, c) && c.workspace !in seen)
      && WorkspacesSeen(seen + {c.workspace}, counts, n + 1)
      && (c.workspace in index ==>
            index[c.workspace] < |now|
            && now[index[c.workspace]].activeHumans == before[index[c.workspace]].activeHumans
            && WithRoles(before, now[index[c.workspace] := now[index[c.workspace]].(activeHumansWithRole := c.count)],
                         counts, n + 1))
  {
    var c := counts[n];
    if c.workspace in seen { var i :| 0 <= i < n && counts[i].workspace == c.workspace; }
  }

  lemma RolesAcceptedPrefix(index: map<string, nat>, rows: seq<Usage>, counts: seq<RoleCount>, n: nat)
    requires n <= |counts| && Indexes(index, rows) && RolesAccepted(index, rows, counts, |counts|)
    ensures RolesAccepted(index, rows, counts, n)
  {
  }

  method ApplyRoleCounts(items: array<Usage>, index: map<string, nat>, counts: seq<RoleCount>)
    returns (error: Option<Error>)
    requires Indexes(index, items[..])
    requires forall i :: 0 <= i < items.Length ==> items[i].activeHumansWithRole == 0
    modifies items
    ensures error == None <==> RolesAccepted(index, old(items[..]), counts, |counts|)
    ensures error.Some? ==> error.value == AggregateInvalid
    ensures error == None ==> WithRoles(old(items[..]), items[..], counts, |counts|)
  {
    ghost var before := items[..];
    var seen: set<string> := {};
    for n := 0 to |counts|
      invariant WorkspacesSeen(seen, counts, n) && RolesAccepted(index, before, counts, n)
      invariant WithRoles(before, items[..], counts, n)
    {
      hide WithRoles, WorkspacesSeen, RolesAccepted;
      var c := counts[n];
      ghost var now := items[..];
      RolesNext(index, before, now, counts, n, seen);
      assert !RolesAccepted(index, before, counts, n + 1) ==> !RolesAccepted(index, before, counts, |counts|) by {
        if RolesAccepted(index, before, counts, |counts|) { RolesAcceptedPrefix(index, before, counts, n + 1); }
      }
      if c.workspace !in index || c.count < 1 { return Some(AggregateInvalid); }
      if c.workspace in seen { return Some(AggregateInvalid); }
      seen := seen + {c.workspace};
      var at := index[c.workspace];
      if c.count > items[at].activeHumans { return Some(AggregateInvalid); }
      items[at] := items[at].(activeHumansWithRole := c.count);
      assert items[..] == now[at := now[at].(activeHumansWithRole := c.count)];
    }
    return None;
  }

  // ---------------------------------------------------------------------
  // The whole count
  // ---------------------------------------------------------------------

  ghost predicate Counts(rows: seq<Usage>, workspaces: seq<string>, groups: seq<Group>, counts: seq<RoleCount>) {
    |rows| == |workspaces| && forall i :: 0 <= i < |rows| ==>
      rows[i] == UsageOf(workspaces[i], groups, |groups|).(
        activeHumansWithRole := CountOf(workspaces[i], counts, |counts|))
  }

  ghost predicate RolesFit(workspaces: seq<string>, groups: seq<Group>, counts: seq<RoleCount>) {
    && (forall c :: c in counts ==> c.workspace in workspaces)
    && (forall c :: c in counts ==> 1 <= c.count <= Total(Of(c.workspace, Human, Active), groups, |groups|))
    && (forall i, j :: 0 <= i < j < |counts| ==> counts[i].workspace != counts[j].workspace)
  }

  function Members(workspaces: seq<string>): set<string> {
    set w | w in workspaces
  }

  datatype Result = Ok(rows: seq<Usage>) | Err(error: Error)

  lemma RolesFitRows(index: map<string, nat>, rows: seq<Usage>, workspaces: seq<string>, groups: seq<Group>,
                     counts: seq<RoleCount>)
    requires Indexes(index, rows) && Rows(rows, groups, |groups|)
    requires |rows| == |workspaces| && forall i :: 0 <= i < |rows| ==> rows[i].workspace == workspaces[i]
    ensures RolesAccepted(index, rows, counts, |counts|) <==> RolesFit(workspaces, groups, counts)
  {
    hide Total;
    forall w ensures w in index <==> w in workspaces {
      if w in workspaces { var i :| 0 <= i < |workspaces| && workspaces[i] == w; assert rows[i].workspace == w; }
    }
    forall w | w in index ensures rows[index[w]].activeHumans == Total(Of(w, Human, Active), groups, |groups|) {}
    if RolesFit(workspaces, groups, counts) {
      forall i | 0 <= i < |counts| ensures Plausible(index, rows, counts[i]) { assert counts[i] in counts; }
    }
  }

  method StartRows(workspaces: seq<string>) returns (items: array<Usage>, index: map<string, nat>)
    requires Distinct(workspaces)
    ensures fresh(items) && items.Length == |workspaces| && Indexes(index, items[..])
    ensures forall i :: 0 <= i < items.Length ==> items[i] == Usage(workspaces[i], 0, 0, 0, 0, 0)
    ensures forall w :: w in index <==> w in workspaces
  {
    items := new Usage[|workspaces|](i => Usage("", 0, 0, 0, 0, 0));
    index := map[];
    for i := 0 to |workspaces|
      invariant forall w :: w in index <==> w in workspaces[..i]
      invariant forall w :: w in index ==> index[w] < i && workspaces[index[w]] == w
      invariant forall k :: 0 <= k < i ==> workspaces[k] in index && index[workspaces[k]] == k
      invariant forall k :: 0 <= k < i ==> items[k] == Usage(workspaces[k], 0, 0, 0, 0, 0)
    {
      items[i] := Usage(workspaces[i], 0, 0, 0, 0, 0);
      index := index[workspaces[i] := i];
    }
    assert workspaces[..|workspaces|] == workspaces;
  }

  /** Counting succeeds exactly for acceptable groups and fitting role counts,
      and then every row holds the totals of its own workspace. */
  method CountUsage(workspaces: seq<string>, groups: seq<Group>, counts: seq<RoleCount>) returns (result: Result)
    requires Distinct(workspaces)
    ensures result.Ok? <==> Accepted(Members(workspaces), groups) && RolesFit(workspaces, groups, counts)
    ensures result.Ok? ==> Counts(result.rows, workspaces, groups, counts)
  {
    var items, index := StartRows(workspaces);
    assert index.Keys == Members(workspaces);
    var error := ApplyGroups(items, index, groups);
    if error.Some? { return Err(error.value); }
    ghost var rows := items[..];
    hide Accepted, RolesAccepted, RolesFit, Total;
    assert forall i :: 0 <= i < |rows| ==> rows[i].workspace == workspaces[i];
    RolesFitRows(index, rows, workspaces, groups, counts);
    error := ApplyRoleCounts(items, index, counts);
    if error.Some? { return Err(error.value); }
    return Ok(items[..]);
  }

  // ---------------------------------------------------------------------
  // What the counts mean
  // ---------------------------------------------------------------------

  /** The four counters of a workspace add up to its accounts that are not deleted. */
  lemma {:induction false} CountersAddUp(known: set<string>, workspace: string, groups: seq<Group>, n: nat)
    requires n <= |groups| && Accepted(known, groups)
    ensures var u := UsageOf(workspace, groups, n);
      u.activeHumans + u.disabledHumans + u.services + u.automations == Total(Undeleted(workspace), groups, n)
  {
    if n > 0 {
      CountersAddUp(known, workspace, groups, n - 1);
      assert Sound(known, groups[n - 1]);
    }
  }

  /** Accounts that hold an active role never outnumber active accounts. */
  lemma {:induction false} RolesWithinActive(workspaces: seq<string>, groups: seq<Group>, counts: seq<RoleCount>,
                                             known: set<string>, w: string, n: nat)
    requires Accepted(known, groups) && RolesFit(workspaces, groups, counts) && n <= |counts|
    ensures 0 <= CountOf(w, counts, n) <= Total(Of(w, Human, Active), groups, |groups|)
  {
    if n == 0 {
      TotalIsNatural(known, Of(w, Human, Active), groups, |groups|);
    } else if counts[n - 1].workspace == w {
      assert counts[n - 1] in counts;
    } else {
      RolesWithinActive(workspaces, groups, counts, known, w, n - 1);
    }
  }

  lemma {:induction false} TotalIsNatural(known: set<string>, wanted: Group -> bool, groups: seq<Group>, n: nat)
    requires n <= |groups| && Accepted(known, groups)
    ensures Total(wanted, groups, n) >= 0
  {
    if n > 0 {
      TotalIsNatural(known, wanted, groups, n - 1);
      assert Sound(known, groups[n - 1]);
    }
  }

  lemma {:induction false} TotalOfPrefix(wanted: Group -> bool, a: seq<Group>, b: seq<Group>, n: nat)
    requires n <= |a| && a <= b
    ensures Total(wanted, a, n) == Total(wanted, b, n)
  {
    if n > 0 { TotalOfPrefix(wanted, a, b, n - 1); }
  }

  lemma {:induction false} TotalOfBoth(wanted: Group -> bool, a: seq<Group>, b: seq<Group>, n: nat)
    requires n <= |b|
    ensures Total(wanted, a + b, |a| + n) == Total(wanted, a, |a|) + Total(wanted, b, n)
  {
    if n == 0 { TotalOfPrefix(wanted, a, a + b, |a|); } else { TotalOfBoth(wanted, a, b, n - 1); }
  }

  lemma {:induction false} TotalIgnoresOrder(wanted: Group -> bool, a: seq<Group>, b: seq<Group>)
    requires multiset(a) == multiset(b)
    ensures Total(wanted, a, |a|) == Total(wanted, b, |b|)
  {
    if a == [] {
      assert |multiset(a)| == |multiset(b)|;
    } else {
      var n := |a| - 1;
      SameBag(a, b);
      assert a[n] in b;
      var k :| 0 <= k < |b| && b[k] == a[n];
      TakeOut(a, b, k);
      TotalIgnoresOrder(wanted, a[..n], b[..k] + b[k + 1..]);
      TotalOfPrefix(wanted, a[..n], a, n);
      TotalWithout(wanted, b, k);
    }
  }

  lemma TotalWithout(wanted: Group -> bool, b: seq<Group>, k: nat)
    requires k < |b|
    ensures var rest := b[..k] + b[k + 1..];
      Total(wanted, b, |b|) == Total(wanted, rest, |rest|) + if wanted(b[k]) then b[k].count else 0
  {
    TotalOfBoth(wanted, b[..k], b[k + 1..], |b| - k - 1);
    TotalOfBoth(wanted, b[..k + 1], b[k + 1..], |b| - k - 1);
    TotalOfPrefix(wanted, b[..k], b[..k + 1], k);
    assert b == b[..k + 1] + b[k + 1..];
  }

  lemma TakeOut<T>(a: seq<T>, b: seq<T>, k: nat)
    requires multiset(a) == multiset(b) && a != [] && k < |b| && b[k] == a[|a| - 1]
    ensures multiset(a[..|a| - 1]) == multiset(b[..k] + b[k + 1..])
  {
    var n := |a| - 1;
    assert a == a[..n] + [a[n]];
    assert b == b[..k] + ([b[k]] + b[k + 1..]);
    assert multiset(a) == multiset(a[..n]) + multiset{a[n]};
    assert multiset(b) == multiset(b[..k]) + (multiset{b[k]} + multiset(b[k + 1..]));
    assert multiset(a[..n]) == multiset(a) - multiset{a[n]};
  }

  /** No two groups are about the same accounts: said without positions. */
  lemma AcceptedWithoutOrder(known: set<string>, groups: seq<Group>)
    ensures Accepted(known, groups) <==>
      && (forall g :: g in groups ==> Sound(known, g))
      && Distinct(groups)
      && (forall g, h :: g in groups && h in groups && KeyOf(g) == KeyOf(h) ==> g == h)
  {
    if Accepted(known, groups) {
      forall i, j | 0 <= i < j < |groups|
        ensures groups[i] != groups[j]
      {
        assert KeyOf(groups[i]) != KeyOf(groups[j]);
      }
    }
  }

  /** Whether groups are accepted does not depend on their order. */
  lemma AcceptedIgnoresOrder(known: set<string>, a: seq<Group>, b: seq<Group>)
    requires multiset(a) == multiset(b)
    ensures Accepted(known, a) <==> Accepted(known, b)
  {
    AcceptedWithoutOrder(known, a);
    AcceptedWithoutOrder(known, b);
    SameBag(a, b);
    DistinctBag(a, b);
    hide Accepted, Distinct, Sound;
  }

  /** Nor does any row that counting produces. */
  lemma UsageIgnoresOrder(workspace: string, a: seq<Group>, b: seq<Group>)
    requires multiset(a) == multiset(b)
    ensures UsageOf(workspace, a, |a|) == UsageOf(workspace, b, |b|)
  {
    TotalIgnoresOrder(Of(workspace, Human, Active), a, b);
    TotalIgnoresOrder(Of(workspace, Human, Disabled), a, b);
    TotalIgnoresOrder(UndeletedOf(workspace, Service), a, b);
    TotalIgnoresOrder(UndeletedOf(workspace, Automation), a, b);
  }

  /** Reordering the groups changes neither whether a count succeeds nor its result. */
  lemma CountsIgnoreOrder(workspaces: seq<string>, a: seq<Group>, b: seq<Group>, counts: seq<RoleCount>,
                          rows: seq<Usage>)
    requires multiset(a) == multiset(b)
    ensures Accepted(Members(workspaces), a) <==> Accepted(Members(workspaces), b)
    ensures RolesFit(workspaces, a, counts) <==> RolesFit(workspaces, b, counts)
    ensures Counts(rows, workspaces, a, counts) <==> Counts(rows, workspaces, b, counts)
  {
    AcceptedIgnoresOrder(Members(workspaces), a, b);
    forall w ensures Total(Of(w, Human, Active), a, |a|) == Total(Of(w, Human, Active), b, |b|) {
      TotalIgnoresOrder(Of(w, Human, Active), a, b);
    }
    forall w ensures UsageOf(w, a, |a|) == UsageOf(w, b, |b|) { UsageIgnoresOrder(w, a, b); }
    hide Accepted, Total, UsageOf;
  }

  /** What a caller reads off a successful count. */
  lemma {:induction false} CountedRows(workspaces: seq<string>, groups: seq<Group>, counts: seq<RoleCount>,
                                       rows: seq<Usage>, i: nat)
    requires Accepted(Members(workspaces), groups) && RolesFit(workspaces, groups, counts)
    requires Counts(rows, workspaces, groups, counts) && i < |rows|
    ensures var u := rows[i];
      && u.workspace == workspaces[i]
      && u.activeHumans + u.disabledHumans + u.services + u.automations
         == Total(Undeleted(workspaces[i]), groups, |groups|)
      && 0 <= u.activeHumansWithRole <= u.activeHumans
  {
    CountersAddUp(Members(workspaces), workspaces[i], groups, |groups|);
    RolesWithinActive(workspaces, groups, counts, Members(workspaces), workspaces[i], |counts|);
  }
}
