/** Deliveries of store organizations: create, rename and disable, each under an
    idempotency key, an expected version and the fingerprint of the state the
    last delivery left. Others may edit the same organization units meanwhile.

    A fingerprint is a hash of a JSON text. Hashes are taken to be injective, so
    a fingerprint is the value that was hashed. */
module StoreDelivery {
  import opened Options
  import opened ParentGraph

  datatype Kind = Company | Region | Store | Department | Team | Warehouse
  datatype Status = Active | Disabled | Other(name: string)

  /** Where a unit stands in the organization, as its row says: three columns that
      are derived from the parents together. */
  datatype Place = Place(path: string, ancestors: seq<string>, depth: int)

  datatype Unit = Unit(id: string, code: string, name: string, kind: Kind, parent: string,
                       place: Place, sortOrder: int, status: Status)

  type Units = map<string, Unit>

  datatype Operation = Create | Rename | Disable

  datatype Request = Request(key: string, operation: Operation, id: string, code: string, name: string,
                             parent: string, sortOrder: int, expectedVersion: int)

  datatype Scope = Everywhere | Within(ids: set<string>)

  /** An authenticated caller and the operations it may perform, each within a scope. */
  datatype Caller = Caller(user: string, audience: string, grants: map<Operation, Scope>)

  datatype Fingerprint = Fingerprint(request: Request, user: string, audience: string)

  datatype Organization = Organization(id: string, code: string, name: string, status: Status, parent: string,
                                       place: Place, sortOrder: int, version: int)

  datatype State = State(version: int, fingerprint: Unit)

  datatype Receipt = Receipt(fingerprint: Fingerprint, result: Organization)

  datatype World = World(units: Units, states: map<string, State>, receipts: map<string, Receipt>)

  datatype Error =
    | Invalid
    | ScopeDenied
    | KeyReused
    | ExternalChange
    | VersionConflict
    | NotFound
    | AlreadyDisabled
    | TypeConflict
    | ParentInvalid
    | Rejected          // hierarchy or name validation
    | StoreConflict     // a uniqueness constraint of the store
    | AuditFailed

  datatype Outcome =
    | Applied(result: Organization)
    | Replayed(result: Organization)
    | Failed(error: Error)

  // ---------------------------------------------------------------------
  // Requests and permissions
  // ---------------------------------------------------------------------

  predicate WellFormed(q: Request) {
    && q.key != "" && q.id != "" && q.expectedVersion >= 0 && q.sortOrder >= 0
    && match q.operation
       case Create => q.expectedVersion == 0 && q.code != "" && q.name != "" && q.parent != ""
       case Rename => q.expectedVersion >= 1 && q.name != "" && q.code == "" && q.parent == "" && q.sortOrder == 0
       case Disable => q.expectedVersion >= 1 && q.name == "" && q.code == "" && q.parent == "" && q.sortOrder == 0
  }

  predicate InScope(c: Caller, op: Operation, id: string) {
    op in c.grants && match c.grants[op]
                      case Everywhere => true
                      case Within(ids) => id != "" && id in ids
  }

  function FingerprintOf(q: Request, c: Caller): Fingerprint {
    Fingerprint(q, c.user, c.audience)
  }

  // ---------------------------------------------------------------------
  // Hierarchy
  // ---------------------------------------------------------------------

  /** The path of a unit, derived from parent links alone. There is none when a
      parent is missing or the links loop: no chain has more links than units. */
  function PathUp(units: Units, id: string, fuel: nat): (chain: Option<seq<string>>)
    ensures chain.Some? ==> chain.value != []
    decreases fuel
  {
    if id !in units then None
    else if units[id].parent == "" then Some([id])
    else if fuel == 0 then None
    else match PathUp(units, units[id].parent, fuel - 1)
      case None => None
      case Some(above) => Some(above + [id])
  }

  function Derived(units: Units, id: string): (chain: Option<seq<string>>)
    ensures chain.Some? ==> chain.value != []
  {
    PathUp(units, id, |units|)
  }

  /** Who names whom as parent. */
  function Links(units: Units): Parents {
    map id | id in units && units[id].parent != "" :: units[id].parent
  }

  /** A derived path is the chain of parents, from the top down. */
  lemma {:induction false} PathSteps(units: Units, id: string, fuel: nat)
    requires PathUp(units, id, fuel).Some?
    ensures var p := PathUp(units, id, fuel).value;
      && p != [] && p[|p| - 1] == id && p[0] in units && p[0] !in Links(units)
      && (forall i :: 0 < i < |p| ==> p[i] in Links(units) && Links(units)[p[i]] == p[i - 1])
    decreases fuel
  {
    if units[id].parent != "" { PathSteps(units, units[id].parent, fuel - 1); }
  }

  lemma {:induction false} PathExists(units: Units, id: string, fuel: nat)
    requires Ends(Links(units), id) && Height(Links(units), id) <= fuel && id in units
    requires forall k :: k in Links(units) ==> Links(units)[k] in units
    ensures PathUp(units, id, fuel).Some?
    decreases fuel
  {
    var up := Links(units);
    if id in up {
      HeightOfParent(up, id);
      PathExists(units, up[id], fuel - 1);
    }
  }

  /** In a hierarchy without cycles or missing parents every unit has a derived
      path, and any derived path is the chain down to the unit. */
  lemma DerivedIsChain(units: Units, id: string)
    ensures Derived(units, id).Some? ==> Ends(Links(units), id) && Derived(units, id).value == Chain(Links(units), id)
    ensures Acyclic(Links(units)) && (forall k :: k in Links(units) ==> Links(units)[k] in units) && id in units
      ==> Derived(units, id).Some?
  {
    var up := Links(units);
    if Derived(units, id).Some? {
      PathSteps(units, id, |units|);
      ChainUnique(up, Derived(units, id).value);
    }
    if Acyclic(up) && (forall k :: k in up ==> up[k] in units) && id in units {
      HeightBound(up, id);
      assert up.Keys <= units.Keys;
      CardinalityGrows(up.Keys, units.Keys);
      PathExists(units, id, |units|);
    }
  }

  function WithoutSlashes(s: string): string {
    if s != "" && s[|s| - 1] == '/' then WithoutSlashes(s[..|s| - 1]) else s
  }

  /** The path column of the unit at the end of a chain of parents. */
  function PathText(chain: seq<string>): string {
    if chain == [] then ""
    else WithoutSlashes(PathText(chain[..|chain| - 1])) + "/" + chain[|chain| - 1]
  }

  function PlaceOf(chain: seq<string>): Place
    requires chain != []
  {
    Place(PathText(chain), chain[..|chain| - 1], |chain| - 1)
  }

  /** The place of a unit before it was derived. */
  const NOWHERE := Place("", [], 0)

  /** The unit stands where its parents say. */
  predicate WellPlaced(units: Units, u: Unit) {
    var chain := Derived(units, u.id);
    chain.Some? && u.place == PlaceOf(chain.value)
  }

  const BLANK := Other("")

  /** A unit without a status is taken for an active one. */
  function Filled(s: Status): Status {
    if s == BLANK then Active else s
  }

  /** The wanted unit with its status and derived place, unless validation
      rejects it. `accepts` stands for the checks of names, codes and
      configuration. */
  function Prepared(accepts: (Units, Unit) -> bool, units: Units, desired: Unit): Option<Unit> {
    var chain := Derived(units[desired.id := desired], desired.id);
    if !accepts(units, desired) || chain == None then None
    else Some(desired.(place := PlaceOf(chain.value), status := Filled(desired.status)))
  }

  // ---------------------------------------------------------------------
  // What a delivery is supposed to do
  // ---------------------------------------------------------------------

  function Project(u: Unit, version: int): Organization {
    Organization(u.id, u.code, u.name, u.status, u.parent, u.place, u.sortOrder, version)
  }

  /** A create is replayed only while its store still matches its delivery state
      and hangs under the same active company, within the caller's scope. */
  function ReplayError(w: World, q: Request, c: Caller, r: Organization): Option<Error> {
    if r.id == "" || r.id != q.id then Some(ExternalChange)
    else if q.operation != Create then
      if InScope(c, q.operation, r.id) then None else Some(ScopeDenied)
    else if r.id !in w.units then Some(ExternalChange)
    else
      var current := w.units[r.id];
      if current.kind != Store || (current.status != Active && current.status != Disabled)
         || r.code != q.code || r.name != q.name || r.status != Active || r.sortOrder != q.sortOrder || r.version != 1
         || r.parent == "" || r.parent != q.parent || current.parent != r.parent then Some(ExternalChange)
      else if current.id !in w.states || w.states[current.id].version < r.version
              || w.states[current.id].fingerprint != current then Some(ExternalChange)
      else if r.parent !in w.units || w.units[r.parent].kind != Company || w.units[r.parent].status != Active
      then Some(ExternalChange)
      else if !InScope(c, q.operation, r.parent) then Some(ScopeDenied)
      else None
  }

  datatype Preparation = Refused(error: Error) | Ready(desired: Unit)

  /** Checks that come before the hierarchy: presence, scope and status. */
  function Wanted(w: World, q: Request, c: Caller): Preparation {
    match q.operation
    case Create =>
      if q.id in w.units || q.expectedVersion != 0 then Refused(VersionConflict)
      else if !InScope(c, q.operation, q.parent) then Refused(ScopeDenied)
      else Ready(Unit(q.id, q.code, q.name, Store, q.parent, NOWHERE, q.sortOrder, Active))
    case Rename =>
      if q.id !in w.units then Refused(NotFound)
      else if !InScope(c, q.operation, w.units[q.id].id) then Refused(ScopeDenied)
      else Ready(w.units[q.id].(name := q.name))
    case Disable =>
      if q.id !in w.units then Refused(NotFound)
      else if !InScope(c, q.operation, w.units[q.id].id) then Refused(ScopeDenied)
      else if w.units[q.id].status == Disabled then Refused(AlreadyDisabled)
      else Ready(w.units[q.id].(status := Disabled))
  }

  /** The version a unit is at: one, until a delivery has recorded more. */
  function CurrentVersion(w: World, id: string): int {
    if id in w.states then w.states[id].version else 1
  }

  function Preparing(accepts: (Units, Unit) -> bool, w: World, q: Request, c: Caller): Preparation {
    match Wanted(w, q, c)
    case Refused(e) => Refused(e)
    case Ready(desired) =>
      if q.id in w.units && w.units[q.id].kind != Store then Refused(TypeConflict)
      else if desired.parent !in w.units || w.units[desired.parent].kind != Company
              || (q.operation == Create && w.units[desired.parent].status != Active) then Refused(ParentInvalid)
      else match Prepared(accepts, w.units, desired)
        case None => Refused(Rejected)
        case Some(prepared) =>
          if q.id in w.units && q.id in w.states && w.states[q.id].fingerprint != w.units[q.id]
          then Refused(ExternalChange)
          else if q.id in w.units && q.expectedVersion != CurrentVersion(w, q.id) then Refused(VersionConflict)
          else Ready(prepared)
  }

  /** The row the store ends up with: an update writes the name or the status
      and leaves every other column. */
  function Written(w: World, q: Request, prepared: Unit): Unit {
    match q.operation
    case Create => prepared
    case Rename => if q.id in w.units then w.units[q.id].(name := prepared.name) else prepared
    case Disable => if q.id in w.units then w.units[q.id].(status := Disabled) else prepared
  }

  function NewVersion(q: Request): int {
    if q.operation == Create then 1 else q.expectedVersion + 1
  }

  function After(w: World, q: Request, c: Caller, prepared: Unit): World {
    var version := NewVersion(q);
    World(w.units[q.id := Written(w, q, prepared)],
          w.states[q.id := State(version, prepared)],
          w.receipts[q.key := Receipt(FingerprintOf(q, c), Project(prepared, version))])
  }

  function DeliverIn(accepts: (Units, Unit) -> bool, w: World, q: Request, c: Caller, audited: bool): (World, Outcome) {
    if !WellFormed(q) then (w, Failed(Invalid))
    else if q.operation !in c.grants then (w, Failed(ScopeDenied))
    else if q.key in w.receipts then
      var r := w.receipts[q.key];
      if r.fingerprint != FingerprintOf(q, c) then (w, Failed(KeyReused))
      else match ReplayError(w, q, c, r.result)
        case Some(e) => (w, Failed(e))
        case None => (w, Replayed(r.result))
    else match Preparing(accepts, w, q, c)
      case Refused(e) => (w, Failed(e))
      case Ready(prepared) =>
        if q.operation == Create && q.id in w.states then (w, Failed(StoreConflict))
        else if !audited then (w, Failed(AuditFailed))
        else (After(w, q, c, prepared), Applied(Project(prepared, NewVersion(q))))
  }

  // ---------------------------------------------------------------------
  // The service
  // ---------------------------------------------------------------------

  class Service {
    var units: Units
    var states: map<string, State>
    var receipts: map<string, Receipt>
    const accepts: (Units, Unit) -> bool

    constructor (units: Units, accepts: (Units, Unit) -> bool)
      ensures Current() == World(units, map[], map[]) && this.accepts == accepts
    {
      this.units, this.accepts := units, accepts;
      states, receipts := map[], map[];
    }

    function Current(): World
      reads this
    {
      World(units, states, receipts)
    }

    /** One transaction: any failure undoes what it wrote. */
    method Deliver(q: Request, c: Caller, audited: bool) returns (outcome: Outcome)
      modifies this
      ensures (Current(), outcome) == DeliverIn(accepts, old(Current()), q, c, audited)
    {
      if !WellFormed(q) { return Failed(Invalid); }
      if q.operation !in c.grants { return Failed(ScopeDenied); }
      var fingerprint := FingerprintOf(q, c);
      if q.key in receipts {
        var receipt := receipts[q.key];
        if receipt.fingerprint != fingerprint { return Failed(KeyReused); }
        var error := ReplayError(Current(), q, c, receipt.result);
        if error.Some? { return Failed(error.value); }
        return Replayed(receipt.result);
      }
      var preparation := PrepareMutation(q, c);
      if preparation.Refused? { return Failed(preparation.error); }
      var prepared := preparation.desired;
      var before := (units, states, receipts);
      var result, conflict := Execute(q, fingerprint, prepared);
      if conflict { return Failed(StoreConflict); }
      if !audited {
        units, states, receipts := before.0, before.1, before.2;
        return Failed(AuditFailed);
      }
      return Applied(result);
    }

    method PrepareMutation(q: Request, c: Caller) returns (preparation: Preparation)
      ensures preparation == Preparing(accepts, Current(), q, c)
    {
      var found := q.id in units;
      var desired: Unit;
      match q.operation {
        case Create =>
          if found || q.expectedVersion != 0 { return Refused(VersionConflict); }
          if !InScope(c, q.operation, q.parent) { return Refused(ScopeDenied); }
          desired := Unit(q.id, q.code, q.name, Store, q.parent, NOWHERE, q.sortOrder, Active);
        case Rename =>
          if !found { return Refused(NotFound); }
          if !InScope(c, q.operation, units[q.id].id) { return Refused(ScopeDenied); }
          desired := units[q.id].(name := q.name);
        case Disable =>
          if !found { return Refused(NotFound); }
          if !InScope(c, q.operation, units[q.id].id) { return Refused(ScopeDenied); }
          if units[q.id].status == Disabled { return Refused(AlreadyDisabled); }
          desired := units[q.id].(status := Disabled);
      }
      if found && units[q.id].kind != Store { return Refused(TypeConflict); }
      if desired.parent !in units || units[desired.parent].kind != Company { return Refused(ParentInvalid); }
      if q.operation == Create && units[desired.parent].status != Active { return Refused(ParentInvalid); }
      var prepared := Prepared(accepts, units, desired);
      if prepared.None? { return Refused(Rejected); }
      if found {
        var version := 1;
        if q.id in states {
          version := states[q.id].version;
          if states[q.id].fingerprint != units[q.id] { return Refused(ExternalChange); }
        }
        if q.expectedVersion != version { return Refused(VersionConflict); }
      }
      return Ready(prepared.value);
    }

    /** Writes the unit, its delivery state and the receipt. */
    method Execute(q: Request, fingerprint: Fingerprint, prepared: Unit) returns (result: Organization, conflict: bool)
      requires q.operation != Create ==> q.id in units && q.expectedVersion == CurrentVersion(Current(), q.id)
      modifies this
      ensures conflict <==> q.operation == Create && q.id in old(states)
      ensures conflict ==> Current() == old(Current())
      ensures !conflict ==>
        && result == Project(prepared, NewVersion(q))
        && units == old(units)[q.id := Written(old(Current()), q, prepared)]
        && states == old(states)[q.id := State(NewVersion(q), prepared)]
        && receipts == old(receipts)[q.key := Receipt(fingerprint, result)]
    {
      conflict := q.operation == Create && q.id in states;
      var version := 1;
      result := Project(prepared, version);
      if conflict { return; }
      match q.operation {
        case Create =>
          units := units[q.id := prepared];
        case Rename =>
          version := (if q.id in states then states[q.id].version else 1) + 1;
          units := units[q.id := units[q.id].(name := prepared.name)];
        case Disable =>
          version := (if q.id in states then states[q.id].version else 1) + 1;
          units := units[q.id := units[q.id].(status := Disabled)];
      }
      states := states[q.id := State(version, prepared)];
      result := Project(prepared, version);
      receipts := receipts[q.key := Receipt(fingerprint, result)];
    }
  }

  // ---------------------------------------------------------------------
  // Runs: deliveries mixed with edits from outside
  // ---------------------------------------------------------------------

  datatype Step =
    | Deliver(request: Request, caller: Caller, audited: bool)
    | Outside(units: Units)       // any edit that bypasses deliveries

  /** One applied delivery: the unit it found, the unit it recorded as its state. */
  /** An applied delivery: who asked for what, the unit it found and left, and the
      version it gave. */
  datatype Entry = Entry(request: Request, caller: Caller, found: Option<Unit>, left: Unit, version: int)

  datatype System = System(world: World, log: seq<Entry>)

  ghost predicate Keyed(units: Units) {
    forall id :: id in units ==> units[id].id == id
  }

  ghost function EntryOf(w: World, q: Request, c: Caller, prepared: Unit): Entry {
    Entry(q, c, if q.id in w.units then Some(w.units[q.id]) else None, prepared, NewVersion(q))
  }

  ghost function Next(accepts: (Units, Unit) -> bool, s: System, step: Step): System {
    match step
    case Deliver(q, c, audited) =>
      var (w, outcome) := DeliverIn(accepts, s.world, q, c, audited);
      System(w, if outcome.Applied? && Preparing(accepts, s.world, q, c).Ready?
                then s.log + [EntryOf(s.world, q, c, Preparing(accepts, s.world, q, c).desired)] else s.log)
    case Outside(units) =>
      if Keyed(units) then System(s.world.(units := units), s.log) else s
  }

  ghost function Run(accepts: (Units, Unit) -> bool, s: System, steps: seq<Step>): System {
    if steps == [] then s
    else Next(accepts, Run(accepts, s, steps[..|steps| - 1]), steps[|steps| - 1])
  }

  ghost function Start(units: Units): System {
    System(World(units, map[], map[]), [])
  }

  /** The last applied delivery for a unit. */
  ghost function Latest(log: seq<Entry>, id: string): Option<Entry> {
    if log == [] then None
    else if log[|log| - 1].request.id == id then Some(log[|log| - 1])
    else Latest(log[..|log| - 1], id)
  }

  /** What the entry says its operation did to the unit. */
  ghost predicate Does(e: Entry) {
    var q := e.request;
    match q.operation
    case Create =>
      e.found == None
      && e.left == Unit(q.id, q.code, q.name, Store, q.parent, e.left.place, q.sortOrder, Active)
    case Rename => e.found.Some? && e.found.value.kind == Store
                   && e.left == e.found.value.(name := q.name, place := e.left.place,
                                               status := Filled(e.found.value.status))
    case Disable => e.found.Some? && e.found.value.kind == Store && e.found.value.status != Disabled
                    && e.left == e.found.value.(status := Disabled, place := e.left.place)
  }

  /** The unit that a caller needs scope over: the parent of a unit to create. */
  function Target(q: Request): string {
    if q.operation == Create then q.parent else q.id
  }

  /** The caller's grant for the operation is unrestricted or lists the unit. */
  predicate Reaches(c: Caller, op: Operation, id: string) {
    op in c.grants && (c.grants[op] == Everywhere || (id != "" && id in c.grants[op].ids))
  }

  /** An entry fits the deliveries before it: its caller's scope reached its target, its
      key is new, and it changed a unit that some delivery had changed before only
      when it found exactly the state the last one left, at exactly the version it
      left. */
  ghost predicate Fits(before: seq<Entry>, e: Entry) {
    && Does(e)
    && Reaches(e.caller, e.request.operation, Target(e.request))
    && (forall i :: 0 <= i < |before| ==> before[i].request.key != e.request.key)
    && match Latest(before, e.request.id)
       case Some(last) =>
         && e.request.operation != Create && e.found == Some(last.left)
         && e.request.expectedVersion == last.version && e.version == last.version + 1
       case None =>
         if e.request.operation == Create then e.request.expectedVersion == 0 && e.version == 1
         else e.request.expectedVersion == 1 && e.version == 2
  }

  ghost predicate Safe(log: seq<Entry>) {
    forall i :: 0 <= i < |log| ==> Fits(log[..i], log[i])
  }

  /** The states are what the log left; the receipts are what the log promised. */
  ghost predicate StatesFollow(s: System) {
    forall id :: match Latest(s.log, id)
                 case None => id !in s.world.states
                 case Some(e) => id in s.world.states && s.world.states[id] == State(e.version, e.left)
  }

  ghost predicate KeysFollow(s: System) {
    forall i :: 0 <= i < |s.log| ==>
      var e := s.log[i];
      && e.request.key in s.world.receipts
      && s.world.receipts[e.request.key].fingerprint.request == e.request
      && s.world.receipts[e.request.key].result == Project(e.left, e.version)
  }

  ghost predicate ReceiptsLogged(s: System) {
    forall key :: key in s.world.receipts ==> exists i :: 0 <= i < |s.log| && s.log[i].request.key == key
  }

  ghost predicate Inv(s: System) {
    Keyed(s.world.units) && StatesFollow(s) && KeysFollow(s) && ReceiptsLogged(s) && Safe(s.log)
  }

  /** An applied delivery was ready, and leaves the world that `After` describes. */
  lemma AppliedMeansReady(accepts: (Units, Unit) -> bool, w: World, q: Request, c: Caller, audited: bool)
    requires DeliverIn(accepts, w, q, c, audited).1.Applied?
    ensures Preparing(accepts, w, q, c).Ready? && q.key !in w.receipts && (q.operation == Create ==> q.id !in w.states)
    ensures var prepared := Preparing(accepts, w, q, c).desired;
      DeliverIn(accepts, w, q, c, audited) == (After(w, q, c, prepared), Applied(Project(prepared, NewVersion(q))))
  {
  }

  /** Anything but an applied delivery changes nothing. */
  lemma OtherwiseNothingChanges(accepts: (Units, Unit) -> bool, w: World, q: Request, c: Caller, audited: bool)
    requires !DeliverIn(accepts, w, q, c, audited).1.Applied?
    ensures DeliverIn(accepts, w, q, c, audited).0 == w
  {
  }

  lemma ReadyEntryFits(accepts: (Units, Unit) -> bool, s: System, q: Request, c: Caller)
    requires Inv(s) && Preparing(accepts, s.world, q, c).Ready? && q.key !in s.world.receipts
    requires q.operation == Create ==> q.id !in s.world.states
    ensures Fits(s.log, EntryOf(s.world, q, c, Preparing(accepts, s.world, q, c).desired))
  {
    hide Safe, ReceiptsLogged;
    var e := EntryOf(s.world, q, c, Preparing(accepts, s.world, q, c).desired);
    assert Does(e);
    forall i | 0 <= i < |s.log|
      ensures s.log[i].request.key != q.key
    {
      assert s.log[i].request.key in s.world.receipts;
    }
    var last := Latest(s.log, q.id);
    assert last == None ==> q.id !in s.world.states;
    assert last.Some? ==> q.id in s.world.states && s.world.states[q.id] == State(last.value.version, last.value.left);
  }

  lemma LatestNext(log: seq<Entry>, e: Entry, id: string)
    ensures Latest(log + [e], id) == if e.request.id == id then Some(e) else Latest(log, id)
  {
    assert (log + [e])[..|log|] == log;
  }

  /** The system after one more entry; `written` is the row the store keeps. */
  ghost function Appended(s: System, e: Entry, c: Caller, written: Unit): System {
    var w, q := s.world, e.request;
    System(World(w.units[q.id := written], w.states[q.id := State(e.version, e.left)],
                 w.receipts[q.key := Receipt(FingerprintOf(q, c), Project(e.left, e.version))]), s.log + [e])
  }

  lemma AppendKeepsSafe(log: seq<Entry>, e: Entry)
    requires Safe(log) && Fits(log, e)
    ensures Safe(log + [e])
  {
    hide Fits;
    var more := log + [e];
    forall i | 0 <= i < |more| ensures Fits(more[..i], more[i]) {
      if i < |log| { assert more[..i] == log[..i]; } else { assert more[..i] == log; }
    }
  }

  lemma AppendKeepsKeys(s: System, e: Entry, c: Caller, written: Unit)
    requires KeysFollow(s) && ReceiptsLogged(s) && e.request.key !in s.world.receipts
    ensures KeysFollow(Appended(s, e, c, written)) && ReceiptsLogged(Appended(s, e, c, written))
  {
    var key, t := e.request.key, Appended(s, e, c, written);
    forall i | 0 <= i < |s.log| ensures s.log[i].request.key != key {}
    forall k | k in t.world.receipts ensures exists i :: 0 <= i < |t.log| && t.log[i].request.key == k {
      if k == key {
        assert t.log[|s.log|].request.key == k;
      } else {
        var i :| 0 <= i < |s.log| && s.log[i].request.key == k;
        assert t.log[i].request.key == k;
      }
    }
  }

  lemma AppendKeepsInv(s: System, e: Entry, c: Caller, written: Unit)
    requires Inv(s) && Fits(s.log, e) && written.id == e.request.id && e.request.key !in s.world.receipts
    ensures Inv(Appended(s, e, c, written))
  {
    var t := Appended(s, e, c, written);
    AppendKeepsSafe(s.log, e);
    AppendKeepsKeys(s, e, c, written);
    AppendKeepsStates(s, e, c, written);
    hide Safe, KeysFollow, ReceiptsLogged, Fits, StatesFollow;
  }

  lemma AppendKeepsStates(s: System, e: Entry, c: Caller, written: Unit)
    requires StatesFollow(s)
    ensures StatesFollow(Appended(s, e, c, written))
  {
    hide Latest;
    var t := Appended(s, e, c, written);
    forall id
      ensures match Latest(t.log, id)
              case None => id !in t.world.states
              case Some(last) => id in t.world.states && t.world.states[id] == State(last.version, last.left)
    {
      LatestNext(s.log, e, id);
    }
  }

  lemma StepKeepsInv(accepts: (Units, Unit) -> bool, s: System, step: Step)
    requires Inv(s)
    ensures Inv(Next(accepts, s, step))
  {
    if step.Deliver? {
      var Deliver(q, c, audited) := step;
      if DeliverIn(accepts, s.world, q, c, audited).1.Applied? {
        AppliedMeansReady(accepts, s.world, q, c, audited);
        var prepared := Preparing(accepts, s.world, q, c).desired;
        ReadyEntryFits(accepts, s, q, c);
        AppendKeepsInv(s, EntryOf(s.world, q, c, prepared), c, Written(s.world, q, prepared));
      } else {
        OtherwiseNothingChanges(accepts, s.world, q, c, audited);
      }
    }
  }

  /** In every run, whatever others edit meanwhile, each delivery that was applied
      was within its caller's scope, each key is applied at most once, and a
      rename or disable of a unit with delivery state is applied
      only to the very unit and version the last delivery left. */
  lemma {:induction false} EveryRunIsSafe(accepts: (Units, Unit) -> bool, units: Units, steps: seq<Step>)
    requires Keyed(units)
    ensures Inv(Run(accepts, Start(units), steps))
    ensures Safe(Run(accepts, Start(units), steps).log)
  {
    if steps != [] {
      EveryRunIsSafe(accepts, units, steps[..|steps| - 1]);
      StepKeepsInv(accepts, Run(accepts, Start(units), steps[..|steps| - 1]), steps[|steps| - 1]);
    }
  }

  // ---------------------------------------------------------------------
  // Keys and versions
  // ---------------------------------------------------------------------

  /** A step never touches a receipt that exists. */
  lemma ReceiptStays(accepts: (Units, Unit) -> bool, s: System, step: Step, key: string)
    requires key in s.world.receipts
    ensures var t := Next(accepts, s, step); key in t.world.receipts && t.world.receipts[key] == s.world.receipts[key]
  {
    if step.Deliver? && DeliverIn(accepts, s.world, step.request, step.caller, step.audited).1.Applied? {
      AppliedMeansReady(accepts, s.world, step.request, step.caller, step.audited);
    }
  }

  lemma {:induction false} ReceiptsStay(accepts: (Units, Unit) -> bool, s: System, steps: seq<Step>, key: string)
    requires key in s.world.receipts
    ensures var t := Run(accepts, s, steps); key in t.world.receipts && t.world.receipts[key] == s.world.receipts[key]
  {
    if steps != [] {
      ReceiptsStay(accepts, s, steps[..|steps| - 1], key);
      ReceiptStays(accepts, Run(accepts, s, steps[..|steps| - 1]), steps[|steps| - 1], key);
    }
  }

  // ---------------------------------------------------------------------
  // Exactly which deliveries are applied
  // ---------------------------------------------------------------------

  /** What a request must say, operation by operation. */
  ghost predicate Complete(q: Request) {
    && q.key != "" && q.id != "" && q.sortOrder >= 0
    && (q.operation == Create ==> q.expectedVersion == 0 && q.code != "" && q.name != "" && q.parent != "")
    && (q.operation != Create ==> q.expectedVersion >= 1 && q.code == "" && q.parent == "" && q.sortOrder == 0)
    && (q.operation == Rename ==> q.name != "") && (q.operation == Disable ==> q.name == "")
  }

  /** The row as the operation wants it. */
  ghost function Desired(w: World, q: Request): Unit
    requires q.operation != Create ==> q.id in w.units
  {
    match q.operation
    case Create => Unit(q.id, q.code, q.name, Store, q.parent, NOWHERE, q.sortOrder, Active)
    case Rename => w.units[q.id].(name := q.name)
    case Disable => w.units[q.id].(status := Disabled)
  }

  /** The unit is there or not as the operation needs it, and is at the version and
      in the state that the last delivery left. */
  ghost predicate Current(w: World, q: Request) {
    if q.operation == Create then q.id !in w.units && q.id !in w.states
    else
      && q.id in w.units && w.units[q.id].kind == Store
      && (q.operation == Disable ==> w.units[q.id].status != Disabled)
      && if q.id in w.states
         then w.states[q.id].version == q.expectedVersion && w.states[q.id].fingerprint == w.units[q.id]
         else q.expectedVersion == 1
  }

  ghost predicate UnderCompany(w: World, q: Request, parent: string) {
    && parent in w.units && w.units[parent].kind == Company
    && (q.operation == Create ==> w.units[parent].status == Active)
  }

  /** A delivery with a new key is applied if and only if the request is complete,
      within the caller's scope and audited, the unit is as the last delivery left
      it, its parent is a company, active for a create, and the domain accepts it
      in a hierarchy that leads up to a top. */
  lemma AppliesIff(accepts: (Units, Unit) -> bool, w: World, q: Request, c: Caller, audited: bool)
    requires Keyed(w.units)
    ensures DeliverIn(accepts, w, q, c, audited).1.Applied? <==>
      && Complete(q) && Reaches(c, q.operation, Target(q)) && q.key !in w.receipts && audited
      && Current(w, q) && UnderCompany(w, q, Desired(w, q).parent)
      && accepts(w.units, Desired(w, q)) && Derived(w.units[q.id := Desired(w, q)], q.id).Some?
  {
    hide Derived;
  }

  /** A request outside the caller's scope changes nothing and is refused as such
      when nothing else is wrong with it before. */
  lemma OutOfScope(accepts: (Units, Unit) -> bool, w: World, q: Request, c: Caller, audited: bool)
    requires Keyed(w.units) && Complete(q) && !Reaches(c, q.operation, Target(q))
    ensures var (t, outcome) := DeliverIn(accepts, w, q, c, audited);
      && t == w && outcome.Failed?
      && (q.key !in w.receipts && (q.operation == Create <==> q.id !in w.units) ==> outcome == Failed(ScopeDenied))
  {
  }

  /** Each error says what was wrong. */
  lemma RefusalsTell(accepts: (Units, Unit) -> bool, w: World, q: Request, c: Caller, audited: bool)
    requires Keyed(w.units) && DeliverIn(accepts, w, q, c, audited).1.Failed? && q.key !in w.receipts
    ensures match DeliverIn(accepts, w, q, c, audited).1.error
      case Invalid => !Complete(q)
      case ScopeDenied => !Reaches(c, q.operation, Target(q))
      case NotFound => q.operation != Create && q.id !in w.units
      case AlreadyDisabled => q.operation == Disable && q.id in w.units && w.units[q.id].status == Disabled
      case TypeConflict => q.id in w.units && w.units[q.id].kind != Store
      case ParentInvalid =>
        (q.operation != Create ==> q.id in w.units) && !UnderCompany(w, q, Desired(w, q).parent)
      case Rejected =>
        (q.operation != Create ==> q.id in w.units)
        && (!accepts(w.units, Desired(w, q)) || Derived(w.units[q.id := Desired(w, q)], q.id) == None)
      case ExternalChange => q.id in w.units && q.id in w.states && w.states[q.id].fingerprint != w.units[q.id]
      case VersionConflict =>
        if q.operation == Create then q.id in w.units
        else q.expectedVersion != if q.id in w.states then w.states[q.id].version else 1
      case StoreConflict => q.operation == Create && q.id in w.states
      case AuditFailed => !audited
      case KeyReused => false
  {
    hide Derived;
  }

  /** The error of a delivery is that of the first check that fails: everything
      checked before is in order. */
  lemma FirstFault(accepts: (Units, Unit) -> bool, w: World, q: Request, c: Caller, audited: bool)
    requires Keyed(w.units) && DeliverIn(accepts, w, q, c, audited).1.Failed? && q.key !in w.receipts
    ensures var e := DeliverIn(accepts, w, q, c, audited).1.error;
      var present := (q.operation == Create <==> q.id !in w.units);
      && (e != Invalid ==> Complete(q))
      && (e == ScopeDenied && q.operation in c.grants ==> present)
      && (e !in {Invalid, NotFound, ScopeDenied} && !(q.operation == Create && e == VersionConflict) ==>
            && present && Reaches(c, q.operation, Target(q))
            && (e != AlreadyDisabled && q.operation == Disable ==> w.units[q.id].status != Disabled)
            && (e !in {AlreadyDisabled, TypeConflict} ==>
                  && (q.operation != Create ==> w.units[q.id].kind == Store)
                  && (e != ParentInvalid ==>
                        && UnderCompany(w, q, Desired(w, q).parent)
                        && (e != Rejected ==> accepts(w.units, Desired(w, q))
                                              && Derived(w.units[q.id := Desired(w, q)], q.id).Some?)
                        && (e == VersionConflict && q.id in w.states ==> w.states[q.id].fingerprint == w.units[q.id])
                        && (e == AuditFailed ==> Current(w, q)))))
  {
    hide Derived;
  }

  /** What an applied delivery leaves and reports: the wanted row, the version after
      the expected one, and an organization that says the same. */
  lemma AppliedLeaves(accepts: (Units, Unit) -> bool, w: World, q: Request, c: Caller, audited: bool)
    requires Keyed(w.units) && DeliverIn(accepts, w, q, c, audited).1.Applied?
    ensures var (t, outcome) := DeliverIn(accepts, w, q, c, audited);
      var r := outcome.result;
      && t.units.Keys == w.units.Keys + {q.id}
         && (forall id :: id in w.units && id != q.id ==> t.units[id] == w.units[id])
      && t.states.Keys == w.states.Keys + {q.id}
      && (forall id :: id in w.states && id != q.id ==> t.states[id] == w.states[id])
      && t.receipts == w.receipts[q.key := Receipt(FingerprintOf(q, c), r)]
      && (q.operation != Create ==> q.id in w.units && t.units[q.id] == Desired(w, q))
      && (q.operation == Create ==> t.units[q.id] == Desired(w, q).(place := t.units[q.id].place))
      && t.states[q.id].version == r.version == q.expectedVersion + 1
      && r.id == q.id && r.code == t.units[q.id].code && r.name == t.units[q.id].name
      && r.parent == t.units[q.id].parent && r.sortOrder == t.units[q.id].sortOrder
      && r.status == Filled(t.units[q.id].status) && r.place == t.states[q.id].fingerprint.place
  {
    AppliedMeansReady(accepts, w, q, c, audited);
    PreparedIsDesired(accepts, w, q, c);
    hide DeliverIn, Preparing, Derived, FingerprintOf;
  }

  lemma PreparedIsDesired(accepts: (Units, Unit) -> bool, w: World, q: Request, c: Caller)
    requires Keyed(w.units) && Preparing(accepts, w, q, c).Ready?
    ensures q.operation != Create ==> q.id in w.units && q.expectedVersion == CurrentVersion(w, q.id)
    ensures q.operation == Create ==> q.id !in w.units && q.expectedVersion == 0
    ensures var prepared, desired := Preparing(accepts, w, q, c).desired, Desired(w, q);
      prepared == desired.(place := prepared.place, status := Filled(desired.status))
  {
    hide Derived, InScope;
  }

  /** A rename or disable that was applied is repeated, in any later run, for the
      same caller exactly while its grant still reaches the unit. */
  lemma UpdateReplaysIff(accepts: (Units, Unit) -> bool, s: System, q: Request, c: Caller, audited: bool,
                         steps: seq<Step>, c2: Caller, audited2: bool)
    requires DeliverIn(accepts, s.world, q, c, audited).1.Applied? && q.operation != Create && Keyed(s.world.units)
    requires c2.user == c.user && c2.audience == c.audience
    ensures var first := DeliverIn(accepts, s.world, q, c, audited).1;
      var w := Run(accepts, Next(accepts, s, Deliver(q, c, audited)), steps).world;
      DeliverIn(accepts, w, q, c2, audited2)
        == (w, if Reaches(c2, q.operation, q.id) then Replayed(first.result) else Failed(ScopeDenied))
  {
    AppliedMeansReady(accepts, s.world, q, c, audited);
    AppliedLeaves(accepts, s.world, q, c, audited);
    var t := Next(accepts, s, Deliver(q, c, audited));
    assert q.key in t.world.receipts;
    ReceiptsStay(accepts, t, steps, q.key);
    hide Derived, Preparing, Run, Next;
  }

  /** After a delivery was applied, any later use of its key, whatever happened
      in between, changes nothing: it gives the original result to the same
      caller asking the same, or it fails. */
  lemma {:induction false} UsedKeyOnlyReplays(accepts: (Units, Unit) -> bool, s: System, q: Request, c: Caller,
                                              audited: bool, steps: seq<Step>, q2: Request, c2: Caller, audited2: bool)
    requires DeliverIn(accepts, s.world, q, c, audited).1.Applied? && q2.key == q.key
    ensures var first := DeliverIn(accepts, s.world, q, c, audited).1;
      var w := Run(accepts, Next(accepts, s, Deliver(q, c, audited)), steps).world;
      var (w2, again) := DeliverIn(accepts, w, q2, c2, audited2);
      && w2 == w
      && (again.Failed?
          || (again == Replayed(first.result) && q2 == q && c2.user == c.user && c2.audience == c.audience))
      && (WellFormed(q2) && q2.operation in c2.grants && FingerprintOf(q2, c2) != FingerprintOf(q, c)
          ==> again == Failed(KeyReused))
  {
    AppliedMeansReady(accepts, s.world, q, c, audited);
    var t := Next(accepts, s, Deliver(q, c, audited));
    assert q.key in t.world.receipts;
    ReceiptsStay(accepts, t, steps, q.key);
  }

  /** What deliveries leave of a unit that one of them created. */
  ghost predicate InPlace(left: Unit, parent: string) {
    left.kind == Store && left.parent == parent && (left.status == Active || left.status == Disabled)
  }

  lemma FitsInPlace(before: seq<Entry>, e: Entry, parent: string)
    requires Fits(before, e)
    requires match Latest(before, e.request.id)
             case None => e.request.operation == Create && e.request.parent == parent
             case Some(last) => last.version >= 1 && InPlace(last.left, parent)
    ensures e.version >= 1 && InPlace(e.left, parent)
  {
    hide Latest;
  }

  ghost predicate LeftInPlace(log: seq<Entry>, id: string, parent: string) {
    Latest(log, id).Some? && Latest(log, id).value.version >= 1 && InPlace(Latest(log, id).value.left, parent)
  }

  lemma StaysInPlace(before: seq<Entry>, e: Entry, id: string, parent: string)
    requires Fits(before, e) && LeftInPlace(before, id, parent)
    ensures LeftInPlace(before + [e], id, parent)
  {
    LatestNext(before, e, id);
    if e.request.id == id {
      hide Fits, Latest, InPlace;
      FitsInPlace(before, e, parent);
    }
  }

  lemma CreatedInPlace(before: seq<Entry>, e: Entry)
    requires Fits(before, e) && e.request.operation == Create
    ensures e.version == 1 && LeftInPlace(before + [e], e.request.id, e.request.parent)
  {
    LatestNext(before, e, e.request.id);
    hide Latest;
  }

  /** A unit that a delivery created stays, as far as deliveries leave it, a store
      under the same parent, enabled or disabled. */
  lemma {:induction false} CreatedStaysPut(log: seq<Entry>, i: nat)
    requires Safe(log) && i < |log| && log[i].request.operation == Create
    ensures log[i].version == 1 && LeftInPlace(log, log[i].request.id, log[i].request.parent)
  {
    hide *;
    var n := |log| - 1;
    SafeBefore(log);
    assert log == log[..n] + [log[n]];
    if i < n {
      assert log[..n][i] == log[i];
      CreatedStaysPut(log[..n], i);
      StaysInPlace(log[..n], log[n], log[i].request.id, log[i].request.parent);
    } else {
      CreatedInPlace(log[..n], log[n]);
    }
  }

  lemma CreateReceipt(s: System, q: Request, c: Caller, i: nat)
    requires Inv(s) && i < |s.log| && s.log[i].request == q && q.operation == Create
    requires q.key in s.world.receipts
    ensures var r := s.world.receipts[q.key].result;
      r == Organization(q.id, q.code, q.name, Active, q.parent, r.place, q.sortOrder, 1)
  {
    CreatedStaysPut(s.log, i);
    assert Fits(s.log[..i], s.log[i]);
  }

  lemma CreateReplayErrorIff(w: World, q: Request, c: Caller, r: Organization)
    requires Keyed(w.units) && q.operation == Create && q.id != "" && q.parent != ""
    requires r == Organization(q.id, q.code, q.name, Active, q.parent, r.place, q.sortOrder, 1)
    requires q.id in w.states ==> w.states[q.id].version >= 1 && InPlace(w.states[q.id].fingerprint, q.parent)
    ensures ReplayError(w, q, c, r) == None <==>
        && q.id in w.units && q.id in w.states && w.states[q.id].fingerprint == w.units[q.id]
        && q.parent in w.units && w.units[q.parent].kind == Company && w.units[q.parent].status == Active
        && InScope(c, Create, q.parent)
  {
  }

  /** In any run, edits from outside included, a create is replayed for its
      caller exactly as long as the store's row is what the last delivery left,
      its parent is an active company, and the caller may create under it. */
  lemma {:induction false} CreateReplaysIff(accepts: (Units, Unit) -> bool, units: Units, steps: seq<Step>, q: Request,
                                            c: Caller, audited: bool)
    requires Keyed(units) && WellFormed(q) && q.operation == Create && Create in c.grants
    requires var w := Run(accepts, Start(units), steps).world;
      q.key in w.receipts && w.receipts[q.key].fingerprint == FingerprintOf(q, c)
    ensures var w := Run(accepts, Start(units), steps).world;
      DeliverIn(accepts, w, q, c, audited).1.Replayed? <==>
        && q.id in w.units && q.id in w.states && w.states[q.id].fingerprint == w.units[q.id]
        && q.parent in w.units && w.units[q.parent].kind == Company && w.units[q.parent].status == Active
        && InScope(c, Create, q.parent)
  {
    EveryRunIsSafe(accepts, units, steps);
    var s := Run(accepts, Start(units), steps);
    var i :| 0 <= i < |s.log| && s.log[i].request.key == q.key;
    assert s.log[i].request == q;
    CreateReceipt(s, q, c, i);
    CreatedStaysPut(s.log, i);
    assert match Latest(s.log, q.id) case None => true
           case Some(e) => q.id in s.world.states && s.world.states[q.id] == State(e.version, e.left);
    hide Safe, Does, Run, Preparing, ReplayError;
    CreateReplayErrorIff(s.world, q, c, s.world.receipts[q.key].result);
  }

  /** The applied deliveries for a unit. */
  ghost function Count(log: seq<Entry>, id: string): nat {
    if log == [] then 0
    else Count(log[..|log| - 1], id) + if log[|log| - 1].request.id == id then 1 else 0
  }

  ghost predicate CreatedIn(log: seq<Entry>, id: string) {
    exists i :: 0 <= i < |log| && log[i].request.id == id && log[i].request.operation == Create
  }

  /** In every run versions count applied deliveries: a unit that deliveries
      created is at the number of its deliveries, one that was there before is
      one ahead. */
  lemma {:induction false} VersionsCount(log: seq<Entry>, id: string)
    requires Safe(log)
    ensures Latest(log, id) == None ==> Count(log, id) == 0 && !CreatedIn(log, id)
    ensures Latest(log, id).Some? ==>
      Latest(log, id).value.version == Count(log, id) + if CreatedIn(log, id) then 0 else 1
  {
    if log != [] {
      var before, e := log[..|log| - 1], log[|log| - 1];
      SafeBefore(log);
      CreatedBefore(log, id);
      VersionsCount(before, id);
      hide Safe, CreatedIn, Does;
      assert Latest(log, id) == if e.request.id == id then Some(e) else Latest(before, id);
    }
  }

  /** The version the store holds, in every run, edits from outside included. */
  lemma {:induction false} RunVersionsCount(accepts: (Units, Unit) -> bool, units: Units, steps: seq<Step>, id: string)
    requires Keyed(units)
    ensures var s := Run(accepts, Start(units), steps);
      && (id in s.world.states <==> Count(s.log, id) > 0)
      && (id in s.world.states ==>
            s.world.states[id].version == Count(s.log, id) + if CreatedIn(s.log, id) then 0 else 1)
  {
    EveryRunIsSafe(accepts, units, steps);
    var s := Run(accepts, Start(units), steps);
    VersionsCount(s.log, id);
    assert match Latest(s.log, id) case None => id !in s.world.states
           case Some(e) => id in s.world.states && s.world.states[id] == State(e.version, e.left);
    LatestCounts(s.log, id);
  }

  lemma {:induction false} LatestCounts(log: seq<Entry>, id: string)
    ensures Latest(log, id).Some? <==> Count(log, id) > 0
  {
    if log != [] { LatestCounts(log[..|log| - 1], id); }
  }

  lemma SafeBefore(log: seq<Entry>)
    requires log != [] && Safe(log)
    ensures Safe(log[..|log| - 1]) && Fits(log[..|log| - 1], log[|log| - 1])
  {
    var before := log[..|log| - 1];
    forall i | 0 <= i < |before| ensures Fits(before[..i], before[i]) {
      assert before[..i] == log[..i] && Fits(log[..i], log[i]);
    }
  }

  lemma CreatedBefore(log: seq<Entry>, id: string)
    requires log != []
    ensures var e := log[|log| - 1];
      CreatedIn(log, id) <==> CreatedIn(log[..|log| - 1], id) || (e.request.id == id && e.request.operation == Create)
  {
    var before := log[..|log| - 1];
    if CreatedIn(before, id) {
      var i :| 0 <= i < |before| && before[i].request.id == id && before[i].request.operation == Create;
      assert log[i] == before[i];
    }
  }

  // ---------------------------------------------------------------------
  // The state matches the row unless the path was stale
  // ---------------------------------------------------------------------

  ghost predicate SameLinks(a: Units, b: Units) {
    forall id :: id in a ==> id in b && b[id].parent == a[id].parent
  }

  lemma {:induction false} PathStays(a: Units, b: Units, id: string, f: nat, g: nat)
    requires SameLinks(a, b) && f <= g && PathUp(a, id, f).Some?
    ensures PathUp(b, id, g) == PathUp(a, id, f)
    decreases f
  {
    if a[id].parent != "" { PathStays(a, b, a[id].parent, f - 1, g - 1); }
  }

  /** The derived path of a unit does not depend on names and statuses, nor on
      units added since. */
  lemma DerivedStays(a: Units, b: Units, id: string)
    requires SameLinks(a, b) && Derived(a, id).Some?
    ensures Derived(b, id) == Derived(a, id)
  {
    assert a.Keys <= b.Keys;
    CardinalityGrows(a.Keys, b.Keys);
    assert |a| == |a.Keys| && |b| == |b.Keys|;
    PathStays(a, b, id, |a|, |b|);
  }

  lemma CardinalityGrows(a: set<string>, b: set<string>)
    requires a <= b
    ensures |a| <= |b|
  {
    assert b == a + (b - a);
  }

  /** The path a delivery derives is that of the hierarchy before it, and of the
      hierarchy after it. */
  lemma DeliveryDerives(accepts: (Units, Unit) -> bool, w: World, q: Request, c: Caller, audited: bool)
    requires Keyed(w.units) && DeliverIn(accepts, w, q, c, audited).1.Applied?
    ensures var t := DeliverIn(accepts, w, q, c, audited).0;
      && q.id in t.states && q.id in t.units && WellPlaced(t.units, t.states[q.id].fingerprint)
      && (q.operation != Create ==> q.id in w.units && Derived(w.units, q.id) == Derived(t.units, q.id))
  {
    AppliedMeansReady(accepts, w, q, c, audited);
    var t := DeliverIn(accepts, w, q, c, audited).0;
    var desired := Wanted(w, q, c).desired;
    var midway := w.units[q.id := desired];
    assert desired.id == q.id;
    assert SameLinks(midway, t.units);
    DerivedStays(midway, t.units, q.id);
    if q.operation != Create {
      assert SameLinks(midway, w.units) && SameLinks(w.units, midway);
      DerivedStays(midway, w.units, q.id);
    }
  }

  /** A create leaves the row and the recorded state equal. So does a disable
      exactly when, before it, the row stood where its parents say, and a rename
      when moreover the row had a status. */
  lemma StateMatchesRowIff(accepts: (Units, Unit) -> bool, w: World, q: Request, c: Caller, audited: bool)
    requires Keyed(w.units) && DeliverIn(accepts, w, q, c, audited).1.Applied?
    ensures var t := DeliverIn(accepts, w, q, c, audited).0;
      && q.id in t.states && q.id in t.units
      && (t.states[q.id].fingerprint == t.units[q.id] <==>
          q.operation == Create || (q.id in w.units && WellPlaced(w.units, w.units[q.id])
                                    && (q.operation == Rename ==> w.units[q.id].status != BLANK)))
  {
    AppliedMeansReady(accepts, w, q, c, audited);
    DeliveryDerives(accepts, w, q, c, audited);
    hide Derived;
  }

  /** The recorded state is not what the row holds. */
  ghost predicate Mismatched(w: World, id: string) {
    Keyed(w.units) && id in w.units && id in w.states && w.states[id].fingerprint != w.units[id]
  }

  lemma MismatchBlocks(accepts: (Units, Unit) -> bool, w: World, q: Request, c: Caller, audited: bool)
    requires Mismatched(w, q.id)
    ensures !DeliverIn(accepts, w, q, c, audited).1.Applied?
  {
  }

  lemma StepKeepsMismatch(accepts: (Units, Unit) -> bool, s: System, step: Step, id: string)
    requires step.Deliver? && Mismatched(s.world, id)
    ensures var t := Next(accepts, s, step);
      Mismatched(t.world, id) && t.world.units[id] == s.world.units[id] && t.world.states[id] == s.world.states[id]
  {
    var Deliver(q, c, audited) := step;
    if DeliverIn(accepts, s.world, q, c, audited).1.Applied? {
      if q.id == id { MismatchBlocks(accepts, s.world, q, c, audited); }
      AppliedMeansReady(accepts, s.world, q, c, audited);
      assert Written(s.world, q, Preparing(accepts, s.world, q, c).desired).id == q.id;
    } else {
      OtherwiseNothingChanges(accepts, s.world, q, c, audited);
    }
  }

  /** A unit whose row and state differ is out of reach of deliveries for good:
      in any run of deliveries its row and state stay, and none is applied to
      it. Only an edit from outside can bring it back. */
  lemma {:induction false} MismatchBlocksForGood(accepts: (Units, Unit) -> bool, s: System, steps: seq<Step>,
                                                 id: string)
    requires DeliveriesOnly(steps) && Mismatched(s.world, id)
    ensures var t := Run(accepts, s, steps);
      && Mismatched(t.world, id) && t.world.units[id] == s.world.units[id] && t.world.states[id] == s.world.states[id]
      && forall q: Request, c, audited :: q.id == id ==> !DeliverIn(accepts, t.world, q, c, audited).1.Applied?
  {
    if steps != [] {
      var before := steps[..|steps| - 1];
      MismatchBlocksForGood(accepts, s, before, id);
      StepKeepsMismatch(accepts, Run(accepts, s, before), steps[|steps| - 1], id);
    }
    var t := Run(accepts, s, steps);
    forall q: Request, c, audited | q.id == id ensures !DeliverIn(accepts, t.world, q, c, audited).1.Applied? {
      MismatchBlocks(accepts, t.world, q, c, audited);
    }
  }

  /** The failing sides are reachable: renaming a store under a company is applied
      whatever its row says of its place and status, and leaves row and state
      different if that place is out of date or the status is blank. */
  lemma RenamedStoreMismatches(place: Place, status: Status)
    ensures
      var units := map["c" := Unit("c", "c", "C", Company, "", Place("/c", [], 0), 0, Active),
                       "s" := Unit("s", "s", "S", Store, "c", place, 0, status)];
      var q := Request("k", Rename, "s", "", "T", "", 0, 1);
      var c := Caller("u", "a", map[Rename := Everywhere]);
      var (t, outcome) := DeliverIn((u, x) => true, World(units, map[], map[]), q, c, true);
      outcome.Applied? && (Mismatched(t, "s") <==> place != Place("/c/s", ["c"], 1) || status == BLANK)
  {
    var units := map["c" := Unit("c", "c", "C", Company, "", Place("/c", [], 0), 0, Active),
                     "s" := Unit("s", "s", "S", Store, "c", place, 0, status)];
    var desired := units["s"].(name := "T");
    var midway := units["s" := desired];
    assert midway.Keys == {"c", "s"} && |midway.Keys| == 2 && |midway| == |midway.Keys|;
    assert PathUp(midway, "c", 1) == Some(["c"]);
    assert PathUp(midway, "s", 2) == Some(["c"] + ["s"]);
    assert ["c"] + ["s"] == ["c", "s"] && |midway| == 2;
    assert Derived(midway, "s") == Some(["c", "s"]);
    PlaceUnderCompany();
    hide PathUp, Derived, PlaceOf;
  }

  lemma PlaceUnderCompany()
    ensures PlaceOf(["c", "s"]) == Place("/c/s", ["c"], 1)
  {
    assert ["c", "s"][..1] == ["c"] && ["c"][..0] == [];
    assert PathText(["c"]) == "/c";
    assert WithoutSlashes("/c") == "/c";
    assert PathText(["c", "s"]) == "/c" + "/" + "s";
  }

  // ---------------------------------------------------------------------
  // Runs of deliveries only
  // ---------------------------------------------------------------------

  ghost predicate DeliveriesOnly(steps: seq<Step>) {
    forall i :: 0 <= i < |steps| ==> steps[i].Deliver?
  }

  /** Between two worlds no unit disappears; only names change, and statuses from
      anything else to disabled. */
  ghost predicate Settled(a: Units, b: Units) {
    forall id :: id in a ==>
      && id in b && b[id] == a[id].(name := b[id].name, status := b[id].status)
      && (b[id].status == a[id].status || b[id].status == Disabled)
      && (a[id].kind != Store ==> b[id] == a[id])
  }

  lemma DeliverySettles(accepts: (Units, Unit) -> bool, s: System, step: Step)
    requires step.Deliver?
    ensures Settled(s.world.units, Next(accepts, s, step).world.units)
  {
    var Deliver(q, c, audited) := step;
    if DeliverIn(accepts, s.world, q, c, audited).1.Applied? {
      AppliedMeansReady(accepts, s.world, q, c, audited);
    } else {
      OtherwiseNothingChanges(accepts, s.world, q, c, audited);
    }
  }

  /** Deliveries alone never change code, kind, parent, path or order of a unit,
      never touch anything but stores, and never enable a disabled one. */
  lemma {:induction false} DeliveriesOnlyChangeNamesAndDisable(accepts: (Units, Unit) -> bool, s: System,
                                                               steps: seq<Step>)
    requires DeliveriesOnly(steps)
    ensures Settled(s.world.units, Run(accepts, s, steps).world.units)
  {
    if steps != [] {
      var before := steps[..|steps| - 1];
      DeliveriesOnlyChangeNamesAndDisable(accepts, s, before);
      DeliverySettles(accepts, Run(accepts, s, before), steps[|steps| - 1]);
    }
  }

  /** What a create leaves behind that lets it be replayed. */
  ghost predicate Replayable(w: World, q: Request, c: Caller, result: Organization) {
    && Keyed(w.units) && WellFormed(q) && q.operation == Create
    && q.key in w.receipts && w.receipts[q.key] == Receipt(FingerprintOf(q, c), result)
    && result == Organization(q.id, q.code, q.name, Active, q.parent, result.place, q.sortOrder, 1)
    && q.parent in w.units && w.units[q.parent].kind == Company && w.units[q.parent].status == Active
    && Unchanged(w, q)
  }

  /** The created store is where it was put, enabled or disabled, and stands as
      the last delivery left it. */
  ghost predicate Unchanged(w: World, q: Request) {
    && q.id in w.units && w.units[q.id].kind == Store && w.units[q.id].parent == q.parent
    && (w.units[q.id].status == Active || w.units[q.id].status == Disabled)
    && WellPlaced(w.units, w.units[q.id])
    && q.id in w.states && w.states[q.id].version >= 1 && w.states[q.id].fingerprint == w.units[q.id]
  }

  lemma CreateIsReplayable(accepts: (Units, Unit) -> bool, w: World, q: Request, c: Caller, audited: bool)
    requires Keyed(w.units) && q.operation == Create && DeliverIn(accepts, w, q, c, audited).1.Applied?
    ensures var (t, outcome) := DeliverIn(accepts, w, q, c, audited); Replayable(t, q, c, outcome.result)
  {
    AppliedMeansReady(accepts, w, q, c, audited);
    DeliveryDerives(accepts, w, q, c, audited);
    StateMatchesRowIff(accepts, w, q, c, audited);
  }

  lemma DeliveryKeepsUnchanged(accepts: (Units, Unit) -> bool, w: World, q: Request, q2: Request, c2: Caller,
                               audited2: bool)
    requires Keyed(w.units) && Unchanged(w, q) && DeliverIn(accepts, w, q2, c2, audited2).1.Applied?
    ensures Unchanged(DeliverIn(accepts, w, q2, c2, audited2).0, q)
  {
    AppliedMeansReady(accepts, w, q2, c2, audited2);
    var t := DeliverIn(accepts, w, q2, c2, audited2).0;
    assert SameLinks(w.units, t.units);
    DerivedStays(w.units, t.units, q.id);
    if q2.id == q.id {
      DeliveryDerives(accepts, w, q2, c2, audited2);
      StateMatchesRowIff(accepts, w, q2, c2, audited2);
    }
  }

  lemma StepKeepsReplayable(accepts: (Units, Unit) -> bool, s: System, step: Step, q: Request, c: Caller,
                            result: Organization)
    requires step.Deliver? && Replayable(s.world, q, c, result)
    ensures Replayable(Next(accepts, s, step).world, q, c, result)
  {
    var Deliver(q2, c2, audited2) := step;
    if DeliverIn(accepts, s.world, q2, c2, audited2).1.Applied? {
      hide Unchanged;
      AppliedMeansReady(accepts, s.world, q2, c2, audited2);
      DeliveryKeepsUnchanged(accepts, s.world, q, q2, c2, audited2);
      ReceiptStays(accepts, s, step, q.key);
    } else {
      OtherwiseNothingChanges(accepts, s.world, q2, c2, audited2);
    }
  }

  lemma {:induction false} RunKeepsReplayable(accepts: (Units, Unit) -> bool, s: System, steps: seq<Step>, q: Request,
                                              c: Caller, result: Organization)
    requires DeliveriesOnly(steps) && Replayable(s.world, q, c, result)
    ensures Replayable(Run(accepts, s, steps).world, q, c, result)
  {
    if steps != [] {
      var before := steps[..|steps| - 1];
      RunKeepsReplayable(accepts, s, before, q, c, result);
      StepKeepsReplayable(accepts, Run(accepts, s, before), steps[|steps| - 1], q, c, result);
    }
  }

  /** After any number of further deliveries, renames and a disable of the very
      store among them, repeating a create gives its original result, as long
      as the caller may still create under that company. */
  lemma {:induction false} CreateAlwaysReplays(accepts: (Units, Unit) -> bool, s: System, q: Request, c: Caller,
                                               audited: bool, steps: seq<Step>, c2: Caller, audited2: bool)
    requires Keyed(s.world.units) && q.operation == Create && DeliverIn(accepts, s.world, q, c, audited).1.Applied?
    requires DeliveriesOnly(steps)
    requires c2.user == c.user && c2.audience == c.audience
    ensures var first := DeliverIn(accepts, s.world, q, c, audited).1;
      var w := Run(accepts, Next(accepts, s, Deliver(q, c, audited)), steps).world;
      DeliverIn(accepts, w, q, c2, audited2).1 == Replayed(first.result) <==> InScope(c2, Create, q.parent)
  {
    CreateIsReplayable(accepts, s.world, q, c, audited);
    var t := Next(accepts, s, Deliver(q, c, audited));
    var result := DeliverIn(accepts, s.world, q, c, audited).1.result;
    RunKeepsReplayable(accepts, t, steps, q, c, result);
  }
}
