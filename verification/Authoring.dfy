/** Idempotent execution of administration mutations: a durable receipt per
    idempotency key, claimed under a lease and a fencing token, completed by at
    most one worker, replayed ever after. */
module Authoring {
  import opened Options

  datatype Status = Processing | Succeeded | FailedTerminal
  datatype Decision = FingerprintConflict | Replay | InProgress | Acquired
  datatype AppError = AppError(kind: string, code: string)

  /** A JSON value; members have no order and a number is its decimal value. */
  datatype Json =
    | Null | Bool(b: bool) | Number(x: real) | Text(text: string)
    | Arr(elements: seq<Json>) | Obj(members: map<string, Json>)

  /** How stored JSON is read back: `float` says what a number is after it was
      read as a float64 and written again, if it is in range, and `depth` how
      deep a value may be nested. Nothing is assumed of either. */
  datatype Reader = Reader(float: real -> Option<real>, depth: nat)

  /** The Go value an owner hands back: none, one that marshals, or one that
      `json.Marshal` refuses. */
  datatype OwnerValue = Absent | Marshals(json: Json) | Unmarshalable

  datatype Outcome = Outcome(value: OwnerValue, hash: string, error: Option<AppError>)

  /** The stored form of an outcome; an empty string is an omitted member. */
  datatype Encoded = Encoded(value: Option<Json>, hash: string, kind: string, code: string)

  datatype Receipt = Receipt(
    id: string, workspace: string, useCase: string, resourceType: string, target: string, key: string,
    fingerprint: string, status: Status, result: Option<Encoded>, owner: string, expires: int, token: int,
    created: int, updated: int)

  datatype Completion = Completion(
    receiptId: string, workspace: string, owner: string, token: int, status: Status, result: Encoded, at: int)

  datatype Claimed = Claimed(decision: Decision, receipt: Receipt)
  datatype Closed = Closed(receipt: Receipt) | LeaseLost | ReceiptUnavailable

  const LEASE_TTL := 30

  function RecordKey(workspace: string, key: string): string {
    workspace + "\0" + key
  }

  /** SHA-256 is treated as injective: the id stands for the bytes hashed. */
  function ReceiptId(record: string): string {
    "identity_authoring_" + record
  }

  /** The hidden `idempotency.Classify`, in its assumed order. */
  function Classify(current: Receipt, fingerprint: string, now: int): Decision {
    if current.fingerprint != fingerprint then FingerprintConflict
    else if current.status != Processing then Replay
    else if now < current.expires then InProgress
    else Acquired
  }

  // ---------------------------------------------------------------------
  // The receipt table as a value
  // ---------------------------------------------------------------------

  type Receipts = map<string, Receipt>

  ghost predicate Indexed(receipts: Receipts) {
    forall k :: k in receipts ==>
      receipts[k].id == ReceiptId(k) && RecordKey(receipts[k].workspace, receipts[k].key) == k
  }

  function TakeOver(current: Receipt, candidate: Receipt, ttl: int): Receipt {
    current.(status := Processing, owner := candidate.owner, expires := candidate.updated + ttl,
             token := current.token + 1, updated := candidate.updated)
  }

  function ClaimIn(receipts: Receipts, candidate: Receipt, ttl: int): (Receipts, Claimed) {
    var k := RecordKey(candidate.workspace, candidate.key);
    if k !in receipts then (receipts[k := candidate], Claimed(Acquired, candidate))
    else
      var current := receipts[k];
      var decision := Classify(current, candidate.fingerprint, candidate.updated);
      if decision == Acquired then
        var next := TakeOver(current, candidate, ttl);
        (receipts[k := next], Claimed(Acquired, next))
      else (receipts, Claimed(decision, current))
  }

  predicate Addresses(c: Completion, r: Receipt) {
    r.id == c.receiptId && r.workspace == c.workspace
  }

  predicate HoldsLease(c: Completion, r: Receipt) {
    r.status == Processing && r.owner == c.owner && r.token == c.token
  }

  function Finish(r: Receipt, c: Completion): Receipt {
    r.(status := c.status, result := Some(c.result), updated := c.at)
  }

  ghost function CompleteIn(receipts: Receipts, c: Completion): (Receipts, Closed) {
    if exists k :: k in receipts && Addresses(c, receipts[k]) then
      var k :| k in receipts && Addresses(c, receipts[k]);
      if HoldsLease(c, receipts[k]) then
        (receipts[k := Finish(receipts[k], c)], Closed(Finish(receipts[k], c)))
      else (receipts, LeaseLost)
    else (receipts, ReceiptUnavailable)
  }

  /** At most one receipt is addressed, so the order in which the map is
      ranged over does not matter. */
  lemma CompleteInAt(receipts: Receipts, c: Completion, k: string)
    requires Indexed(receipts) && k in receipts && Addresses(c, receipts[k])
    ensures CompleteIn(receipts, c) ==
            if HoldsLease(c, receipts[k]) then (receipts[k := Finish(receipts[k], c)], Closed(Finish(receipts[k], c)))
            else (receipts, LeaseLost)
  {
    forall j | j in receipts && Addresses(c, receipts[j]) ensures j == k {
      assert ReceiptId(j)[19..] == j && ReceiptId(k)[19..] == k;
    }
  }

  /** What a claim that acquires a record leaves behind: the claimed request under
      a lease of thirty seconds and a token of its own, and every other receipt
      as it was. */
  lemma GrantLeases(receipts: Receipts, candidate: Receipt)
    requires candidate.status == Processing && candidate.token == 1
    requires candidate.expires == candidate.updated + 30
    requires ClaimIn(receipts, candidate, LEASE_TTL).1.decision == Acquired
    ensures var (next, claim) := ClaimIn(receipts, candidate, LEASE_TTL);
      var k := RecordKey(candidate.workspace, candidate.key);
      && next.Keys == receipts.Keys + {k} && next[k] == claim.receipt
      && (forall j :: j in receipts && j != k ==> next[j] == receipts[j])
      && claim.receipt.status == Processing && claim.receipt.fingerprint == candidate.fingerprint
      && claim.receipt.owner == candidate.owner && claim.receipt.expires == candidate.updated + 30
      && claim.receipt.token == (if k in receipts then receipts[k].token + 1 else 1)
      && (k in receipts ==> receipts[k].status == Processing && candidate.updated >= receipts[k].expires)
  {
  }

  /** A grant at clock `t` keeps the record: until thirty seconds later a repeat of
      the request finds it in progress, and from then on takes it over with the
      next token. */
  lemma LeaseKeepsOthersOut(receipts: Receipts, q: Request, owner: string, t: int, other: string, u: int)
    requires ClaimIn(receipts, Candidate(q, owner, t), LEASE_TTL).1.decision == Acquired
    ensures var (held, first) := ClaimIn(receipts, Candidate(q, owner, t), LEASE_TTL);
      var (next, second) := ClaimIn(held, Candidate(q, other, u), LEASE_TTL);
      if u < t + 30 then second.decision == InProgress && next == held
      else second.decision == Acquired && second.receipt.token == first.receipt.token + 1
           && second.receipt.owner == other && second.receipt.expires == u + 30
  {
    GrantLeases(receipts, Candidate(q, owner, t));
  }

  lemma NoneBefore(workspace: string, key: string, i: nat)
    requires '\0' !in workspace && i < |workspace|
    ensures RecordKey(workspace, key)[i] != '\0'
  {
    assert RecordKey(workspace, key)[i] == workspace[i];
  }

  /** Records of different keys are different, as long as no workspace id holds
      the character that separates the two. */
  lemma RecordsApart(a: string, k: string, b: string, l: string)
    requires '\0' !in a && '\0' !in b && RecordKey(a, k) == RecordKey(b, l)
    ensures a == b && k == l
  {
    var s, t := RecordKey(a, k), RecordKey(b, l);
    forall i: nat | i < |b| ensures t[i] != '\0' { NoneBefore(b, l, i); }
    forall i: nat | i < |a| ensures s[i] != '\0' { NoneBefore(a, k, i); }
    assert s[|a|] == '\0' && t[|b|] == '\0';
    assert s[..|a|] == a && t[..|b|] == b;
    assert s[|a| + 1..] == k && t[|b| + 1..] == l;
  }

  // ---------------------------------------------------------------------
  // The repository
  // ---------------------------------------------------------------------

  class MemoryRepository {
    var receipts: map<string, Receipt>

    constructor ()
      ensures receipts == map[] && Indexed(receipts)
    {
      receipts := map[];
    }

    method Claim(candidate: Receipt, ttl: int) returns (claim: Claimed)
      requires Indexed(receipts) && candidate.id == ReceiptId(RecordKey(candidate.workspace, candidate.key))
      modifies this
      ensures (receipts, claim) == ClaimIn(old(receipts), candidate, ttl)
      ensures Indexed(receipts)
    {
      var key := RecordKey(candidate.workspace, candidate.key);
      if key !in receipts {
        receipts := receipts[key := candidate];
        return Claimed(Acquired, candidate);
      }
      var current := receipts[key];
      var decision := Classify(current, candidate.fingerprint, candidate.updated);
      if decision == Acquired {
        current := current.(status := Processing);
        current := current.(owner := candidate.owner);
        current := current.(expires := candidate.updated + ttl);
        current := current.(token := current.token + 1);
        current := current.(updated := candidate.updated);
        receipts := receipts[key := current];
      }
      return Claimed(decision, current);
    }

    method Complete(completion: Completion) returns (closed: Closed)
      requires Indexed(receipts)
      modifies this
      ensures (receipts, closed) == CompleteIn(old(receipts), completion)
      ensures Indexed(receipts)
    {
      var pending := receipts.Keys;
      while pending != {}
        invariant pending <= receipts.Keys && receipts == old(receipts)
        invariant forall k :: k in receipts && k !in pending ==> !Addresses(completion, receipts[k])
        decreases pending
      {
        var key :| key in pending;
        pending := pending - {key};
        var current := receipts[key];
        if current.id != completion.receiptId || current.workspace != completion.workspace {
          continue;
        }
        CompleteInAt(receipts, completion, key);
        if current.status != Processing || current.owner != completion.owner || current.token != completion.token {
          return LeaseLost;
        }
        current := current.(status := completion.status, result := Some(completion.result), updated := completion.at);
        receipts := receipts[key := current];
        return Closed(current);
      }
      return ReceiptUnavailable;
    }
  }

  // ---------------------------------------------------------------------
  // Encoding an outcome and replaying it
  // ---------------------------------------------------------------------

  const RESULT_INVALID := AppError("internal", "backend.authoring.result_invalid")

  /** The error the caller sees: a result that cannot be encoded is one. */
  function ReportedError(o: Outcome): Option<AppError> {
    if o.value == Unmarshalable then Some(RESULT_INVALID) else o.error
  }

  function Encode(o: Outcome): Encoded {
    if o.value == Unmarshalable then Encoded(None, "", RESULT_INVALID.kind, RESULT_INVALID.code)
    else
      var value := if o.value == Absent then None else Some(o.value.json);
      if o.error == None then Encoded(value, o.hash, "", "")
      else Encoded(value, o.hash, o.error.value.kind, o.error.value.code)
  }

  function StatusOf(o: Outcome): Status {
    if ReportedError(o) == None then Succeeded else FailedTerminal
  }

  datatype Response = Response(
    value: OwnerValue, operation: string, hash: string, replayed: bool, error: Option<AppError>)

  /** What the worker that completed the receipt returns to its caller. */
  function Live(o: Outcome, id: string): Response {
    Response(o.value, id, o.hash, false, ReportedError(o))
  }

  /** Every number of a value stays what it is. */
  predicate Survives(reader: Reader, j: Json) {
    match j
    case Number(x) => reader.float(x) == Some(x)
    case Arr(elements) => forall i :: 0 <= i < |elements| ==> Survives(reader, elements[i])
    case Obj(members) => forall k :: k in members ==> Survives(reader, members[k])
    case _ => true
  }

  predicate NumbersInRange(reader: Reader, j: Json) {
    match j
    case Number(x) => reader.float(x) != None
    case Arr(elements) => forall i :: 0 <= i < |elements| ==> NumbersInRange(reader, elements[i])
    case Obj(members) => forall k :: k in members ==> NumbersInRange(reader, members[k])
    case _ => true
  }

  predicate NestsWithin(j: Json, depth: int)
    decreases j
  {
    match j
    case Arr(elements) => depth > 0 && forall i :: 0 <= i < |elements| ==> NestsWithin(elements[i], depth - 1)
    case Obj(members) => depth > 0 && forall k :: k in members ==> NestsWithin(members[k], depth - 1)
    case _ => true
  }

  predicate Readable(reader: Reader, j: Json) {
    NestsWithin(j, reader.depth) && NumbersInRange(reader, j)
  }

  /** The value that comes back, with every number as the reader leaves it. */
  function ReadBack(reader: Reader, j: Json): Json
    requires NumbersInRange(reader, j)
    decreases j
  {
    match j
    case Number(x) => Number(reader.float(x).value)
    case Arr(elements) => Arr(seq(|elements|, i requires 0 <= i < |elements| => ReadBack(reader, elements[i])))
    case Obj(members) => Obj(map k | k in members :: ReadBack(reader, members[k]))
    case _ => j
  }

  const RECEIPT_INVALID := AppError("internal", "backend.authoring.receipt_result_invalid")

  function ReplayResult(reader: Reader, receipt: Receipt): Response {
    if receipt.result == None then Response(Absent, "", "", false, Some(RECEIPT_INVALID))
    else
      var stored := receipt.result.value;
      if stored.value != None && !Readable(reader, stored.value.value) then
        Response(Absent, "", "", false, Some(RECEIPT_INVALID))
      else
        var value := if stored.value == None || stored.value == Some(Null) then Absent
                     else Marshals(ReadBack(reader, stored.value.value));
        var error := if receipt.status == FailedTerminal then Some(AppError(stored.kind, stored.code)) else None;
        Response(value, receipt.id, stored.hash, true, error)
  }

  /** The JSON a caller sees of a value; a Go nil inside an interface and no
      value at all both show as nothing. */
  function Shown(v: OwnerValue): OwnerValue {
    if v == Marshals(Null) then Absent else v
  }

  predicate SameError(replay: Response, live: Response) {
    replay.error == live.error && replay.operation == live.operation
  }

  predicate SameAnswer(replay: Response, live: Response) {
    SameError(replay, live) && Shown(replay.value) == Shown(live.value) && replay.hash == live.hash
  }

  /** A value comes back as it was exactly when each of its numbers does. */
  lemma {:induction false} ReadBackIff(reader: Reader, j: Json)
    requires NumbersInRange(reader, j)
    ensures ReadBack(reader, j) == j <==> Survives(reader, j)
    decreases j
  {
    match j
    case Arr(elements) =>
      var back := seq(|elements|, i requires 0 <= i < |elements| => ReadBack(reader, elements[i]));
      assert ReadBack(reader, j) == Arr(back);
      forall i | 0 <= i < |elements| ensures back[i] == elements[i] <==> Survives(reader, elements[i]) {
        ReadBackIff(reader, elements[i]);
      }
      assert back == elements <==> forall i :: 0 <= i < |elements| ==> back[i] == elements[i];
    case Obj(members) =>
      var back := map k | k in members :: ReadBack(reader, members[k]);
      assert ReadBack(reader, j) == Obj(back);
      forall k | k in members ensures back[k] == members[k] <==> Survives(reader, members[k]) {
        ReadBackIff(reader, members[k]);
      }
      assert back == members <==> forall k :: k in members ==> back[k] == members[k];
    case _ =>
  }

  lemma {:induction false} SurvivorsInRange(reader: Reader, j: Json)
    requires Survives(reader, j)
    ensures NumbersInRange(reader, j)
    decreases j
  {
    match j
    case Arr(elements) =>
      forall i | 0 <= i < |elements| ensures NumbersInRange(reader, elements[i]) {
        SurvivorsInRange(reader, elements[i]);
      }
    case Obj(members) =>
      forall k | k in members ensures NumbersInRange(reader, members[k]) { SurvivorsInRange(reader, members[k]); }
    case _ =>
  }

  /** The stored value can be read at all. */
  predicate ReadsBack(reader: Reader, o: Outcome) {
    o.value.Marshals? ==> Readable(reader, o.value.json)
  }

  /** The result was encoded and reads back as the same value. */
  predicate Kept(reader: Reader, o: Outcome) {
    o.value != Unmarshalable && (o.value.Marshals? ==> Readable(reader, o.value.json) && Survives(reader, o.value.json))
  }

  /** A receipt that holds the encoding of an outcome answers like the worker
      that completed it: in operation, error kind and code exactly when the stored
      value can be read, and in value and hash exactly when moreover the outcome
      could be encoded and each of its numbers survives a float64. */
  lemma ReplayAgrees(reader: Reader, r: Receipt, o: Outcome)
    requires r.id != "" && r.result == Some(Encode(o)) && r.status == StatusOf(o)
    ensures ReplayResult(reader, r).replayed <==> ReadsBack(reader, o)
    ensures SameError(ReplayResult(reader, r), Live(o, r.id)) <==> ReadsBack(reader, o)
    ensures SameAnswer(ReplayResult(reader, r), Live(o, r.id)) <==> Kept(reader, o)
  {
    if ReadsBack(reader, o) && o.value.Marshals? { ReadBackIff(reader, o.value.json); }
  }

  /** Two failing cases: a number that a float64 does not hold, such as 2^53 + 1,
      comes back as its neighbour, and a value that cannot be encoded does not
      come back at all. */
  lemma LostInReplay(reader: Reader, r: Receipt, hash: string)
    requires r.id != "" && reader.float(9007199254740993.0) == Some(9007199254740992.0)
    ensures var o := Outcome(Marshals(Number(9007199254740993.0)), hash, None);
      ReplayResult(reader, r.(result := Some(Encode(o)), status := StatusOf(o))).value
        == Marshals(Number(9007199254740992.0)) != Live(o, r.id).value
    ensures var o := Outcome(Unmarshalable, hash, None);
      ReplayResult(reader, r.(result := Some(Encode(o)), status := StatusOf(o))).value == Absent != Live(o, r.id).value
  {
  }

  // ---------------------------------------------------------------------
  // Concurrent workers
  // ---------------------------------------------------------------------

  datatype Request = Request(
    workspace: string, key: string, useCase: string, resourceType: string, target: string, fingerprint: string)

  function Candidate(q: Request, owner: string, now: int): Receipt {
    Receipt(ReceiptId(RecordKey(q.workspace, q.key)), q.workspace, q.useCase, q.resourceType, q.target, q.key,
            q.fingerprint, Processing, None, owner, now + LEASE_TTL, 1, now, now)
  }

  function CompletionOf(r: Receipt, o: Outcome, now: int): Completion {
    Completion(r.id, r.workspace, r.owner, r.token, StatusOf(o), Encode(o), now)
  }

  datatype Worker = Idle | Holding(receipt: Receipt) | Executed(receipt: Receipt, outcome: Outcome)

  /** One atomic step of one worker. Clocks are per worker and unconstrained,
      so a lease may expire, or seem to, at any moment; a worker may stall
      between any two steps or crash; owners may return anything. */
  datatype Step =
    | Claim(w: nat, request: Request, owner: string, now: int)
    | Execute(w: nat, outcome: Outcome)
    | Complete(w: nat, now: int)
    | Crash(w: nat)

  datatype Entry =
    | Granted(record: string, w: nat, token: int)
    | Finished(record: string, w: nat, token: int, outcome: Outcome)
    | Replayed(record: string, w: nat, receipt: Receipt)

  datatype System = System(receipts: Receipts, workers: map<nat, Worker>, log: seq<Entry>)

  const START := System(map[], map[], [])

  function WorkerOf(s: System, w: nat): Worker {
    if w in s.workers then s.workers[w] else Idle
  }

  ghost function Next(s: System, step: Step): System {
    match step
    case Claim(w, q, owner, now) =>
      if WorkerOf(s, w) != Idle then s
      else
        var (receipts, claim) := ClaimIn(s.receipts, Candidate(q, owner, now), LEASE_TTL);
        var record := RecordKey(q.workspace, q.key);
        (match claim.decision
         case Acquired =>
           System(receipts, s.workers[w := Holding(claim.receipt)], s.log + [Granted(record, w, claim.receipt.token)])
         case Replay => System(receipts, s.workers, s.log + [Replayed(record, w, claim.receipt)])
         case _ => System(receipts, s.workers, s.log))
    case Execute(w, outcome) =>
      if WorkerOf(s, w).Holding? then s.(workers := s.workers[w := Executed(s.workers[w].receipt, outcome)]) else s
    case Complete(w, now) =>
      if !WorkerOf(s, w).Executed? then s
      else
        var Executed(receipt, outcome) := s.workers[w];
        var (receipts, closed) := CompleteIn(s.receipts, CompletionOf(receipt, outcome, now));
        var record := RecordKey(receipt.workspace, receipt.key);
        System(receipts, s.workers[w := Idle],
               if closed.Closed? then s.log + [Finished(record, w, receipt.token, outcome)] else s.log)
    case Crash(w) => s.(workers := s.workers[w := Idle])
  }

  ghost function Run(s: System, steps: seq<Step>): System {
    if steps == [] then s else Next(Run(s, steps[..|steps| - 1]), steps[|steps| - 1])
  }

  // ---- what a log may look like

  /** Each grant of a record carries a larger token than every earlier one, so
      no token is granted twice. */
  ghost predicate TokensRise(log: seq<Entry>) {
    forall i, j :: 0 <= i < j < |log| && log[i].Granted? && log[j].Granted? && log[i].record == log[j].record
      ==> log[i].token < log[j].token
  }

  ghost predicate GrantedBefore(log: seq<Entry>, n: int, record: string, w: nat, token: int)
    requires 0 <= n <= |log|
  {
    exists i :: 0 <= i < n && log[i] == Granted(record, w, token)
  }

  /** The worker that finishes a record holds the newest token ever granted for
      it, and nothing is granted or finished for the record afterwards. */
  ghost predicate FinishedOnceByNewest(log: seq<Entry>) {
    forall j :: 0 <= j < |log| && log[j].Finished? ==>
      && GrantedBefore(log, j, log[j].record, log[j].w, log[j].token)
      && (forall i :: 0 <= i < |log| && log[i].Granted? && log[i].record == log[j].record ==>
            i < j && log[i].token <= log[j].token)
      && (forall i :: 0 <= i < |log| && log[i].Finished? && log[i].record == log[j].record ==> i == j)
  }

  /** However stored JSON is read back, the receipt answers like the outcome as
      far as the outcome can be stored and read. */
  ghost predicate AnswersLike(r: Receipt, o: Outcome, id: string) {
    r.id == id && forall reader: Reader ::
      && (SameError(ReplayResult(reader, r), Live(o, id)) <==> ReadsBack(reader, o))
      && (SameAnswer(ReplayResult(reader, r), Live(o, id)) <==> Kept(reader, o))
  }

  lemma HeldOutcomeAnswers(r: Receipt, o: Outcome, record: string)
    requires r.id == ReceiptId(record) && r.result == Some(Encode(o)) && r.status == StatusOf(o)
    ensures AnswersLike(r, o, ReceiptId(record))
  {
    hide ReplayResult, Live, Encode, StatusOf, SameError, SameAnswer, ReadsBack, Kept;
    forall reader: Reader
      ensures SameError(ReplayResult(reader, r), Live(o, r.id)) <==> ReadsBack(reader, o)
      ensures SameAnswer(ReplayResult(reader, r), Live(o, r.id)) <==> Kept(reader, o)
    {
      ReplayAgrees(reader, r, o);
    }
  }

  /** Every replay follows the completion of its record and repeats it. */
  ghost predicate ReplaysRepeat(log: seq<Entry>) {
    forall j :: 0 <= j < |log| && log[j].Replayed? ==> ReplayedAfter(log, j)
  }

  ghost predicate ReplayedAfter(log: seq<Entry>, j: int)
    requires 0 <= j < |log| && log[j].Replayed?
  {
    exists i :: 0 <= i < j && log[i].Finished? && log[i].record == log[j].record
                && AnswersLike(log[j].receipt, log[i].outcome, ReceiptId(log[j].record))
  }

  ghost predicate Safe(log: seq<Entry>) {
    TokensRise(log) && FinishedOnceByNewest(log) && ReplaysRepeat(log)
  }

  // ---- the invariant behind it

  ghost predicate FinishedIn(log: seq<Entry>, record: string, r: Receipt) {
    exists i :: 0 <= i < |log| && log[i].Finished? && log[i].record == record && log[i].token == r.token
                && r.status == StatusOf(log[i].outcome) && r.result == Some(Encode(log[i].outcome))
  }

  ghost predicate Knows(s: System, w: nat, r: Receipt) {
    var k := RecordKey(r.workspace, r.key);
    && k in s.receipts && r.id == ReceiptId(k) && s.receipts[k].workspace == r.workspace
    && GrantedBefore(s.log, |s.log|, k, w, r.token)
  }

  ghost predicate EntryFits(s: System, e: Entry) {
    && e.record in s.receipts
    && (e.Granted? ==> e.token <= s.receipts[e.record].token)
    && (e.Finished? ==> s.receipts[e.record].status != Processing && e.token == s.receipts[e.record].token)
  }

  ghost predicate EntriesFit(s: System) {
    forall i :: 0 <= i < |s.log| ==> EntryFits(s, s.log[i])
  }

  ghost predicate TerminalsFinished(s: System) {
    forall k :: k in s.receipts && s.receipts[k].status != Processing ==> FinishedIn(s.log, k, s.receipts[k])
  }

  ghost predicate WorkersKnow(s: System) {
    forall w :: w in s.workers && !s.workers[w].Idle? ==> Knows(s, w, s.workers[w].receipt)
  }

  ghost predicate Booked(s: System) {
    Indexed(s.receipts) && EntriesFit(s) && TerminalsFinished(s) && WorkersKnow(s)
  }

  ghost predicate Inv(s: System) {
    Booked(s) && Safe(s.log)
  }

  /** How a receipt may change: its request never does, its token never falls,
      and once it is terminal nothing does. */
  ghost predicate Evolves(a: Receipts, b: Receipts) {
    forall k :: k in a ==>
      && k in b && b[k].fingerprint == a[k].fingerprint && b[k].id == a[k].id && b[k].workspace == a[k].workspace
      && b[k].token >= a[k].token
      && (a[k].status != Processing ==> b[k] == a[k])
  }

  lemma FinishedLater(log: seq<Entry>, more: seq<Entry>, record: string, r: Receipt)
    requires log <= more && FinishedIn(log, record, r)
    ensures FinishedIn(more, record, r)
  {
    var i :| 0 <= i < |log| && log[i].Finished? && log[i].record == record && log[i].token == r.token
             && r.status == StatusOf(log[i].outcome) && r.result == Some(Encode(log[i].outcome));
    assert more[i] == log[i];
  }

  lemma KnowsLater(s: System, t: System, w: nat, r: Receipt)
    requires Knows(s, w, r) && s.log <= t.log && Evolves(s.receipts, t.receipts)
    ensures Knows(t, w, r)
  {
    var k := RecordKey(r.workspace, r.key);
    var i :| 0 <= i < |s.log| && s.log[i] == Granted(k, w, r.token);
    assert t.log[i] == s.log[i];
  }

  /** What has to be shown of a step that appends one entry. */
  lemma AppendKeepsBook(s: System, t: System, e: Entry)
    requires Booked(s) && t.log == s.log + [e]
    requires Indexed(t.receipts) && Evolves(s.receipts, t.receipts) && EntryFits(t, e)
    requires forall k :: k in t.receipts && t.receipts[k].status != Processing ==>
               (k in s.receipts && s.receipts[k] == t.receipts[k]) || FinishedIn(t.log, k, t.receipts[k])
    requires forall w :: w in t.workers && !t.workers[w].Idle? ==>
               (w in s.workers && t.workers[w] == s.workers[w]) || Knows(t, w, t.workers[w].receipt)
    requires e.Finished? || forall k :: k in s.receipts && s.receipts[k].status != Processing ==>
               t.receipts[k] == s.receipts[k]
    ensures Booked(t)
  {
    forall i | 0 <= i < |t.log| ensures EntryFits(t, t.log[i]) {
      if i < |s.log| { assert t.log[i] == s.log[i] && EntryFits(s, s.log[i]); }
    }
    forall k | k in t.receipts && t.receipts[k].status != Processing ensures FinishedIn(t.log, k, t.receipts[k]) {
      if k in s.receipts && s.receipts[k] == t.receipts[k] { FinishedLater(s.log, t.log, k, t.receipts[k]); }
    }
    forall w | w in t.workers && !t.workers[w].Idle? ensures Knows(t, w, t.workers[w].receipt) {
      if w in s.workers && t.workers[w] == s.workers[w] { KnowsLater(s, t, w, t.workers[w].receipt); }
    }
  }

  lemma GrantKeepsBook(s: System, w: nat, q: Request, owner: string, now: int)
    requires Booked(s) && WorkerOf(s, w) == Idle
    requires ClaimIn(s.receipts, Candidate(q, owner, now), LEASE_TTL).1.decision == Acquired
    ensures var t := Next(s, Claim(w, q, owner, now)); Booked(t) && Evolves(s.receipts, t.receipts)
  {
    var (receipts, claim) := ClaimIn(s.receipts, Candidate(q, owner, now), LEASE_TTL);
    var k := RecordKey(q.workspace, q.key);
    var t := Next(s, Claim(w, q, owner, now));
    var e := Granted(k, w, claim.receipt.token);
    GrantKeepsIndex(s.receipts, q, owner, now);
    assert t == System(receipts, s.workers[w := Holding(claim.receipt)], s.log + [e]);
    assert t.log[|s.log|] == e;
    assert Knows(t, w, claim.receipt);
    hide ClaimIn, Next, Indexed, Evolves, EntriesFit, TerminalsFinished, WorkersKnow, FinishedIn, Knows;
    AppendKeepsBook(s, t, e);
  }

  /** A grant writes the receipt of its record, which was not terminal. */
  lemma GrantKeepsIndex(receipts: Receipts, q: Request, owner: string, now: int)
    requires Indexed(receipts)
    requires ClaimIn(receipts, Candidate(q, owner, now), LEASE_TTL).1.decision == Acquired
    ensures var (next, claim) := ClaimIn(receipts, Candidate(q, owner, now), LEASE_TTL);
      var k := RecordKey(q.workspace, q.key);
      && Indexed(next) && Evolves(receipts, next) && next == receipts[k := claim.receipt]
      && claim.receipt.status == Processing && claim.receipt.id == ReceiptId(k)
      && RecordKey(claim.receipt.workspace, claim.receipt.key) == k
  {
    var k := RecordKey(q.workspace, q.key);
    assert k in receipts ==> RecordKey(receipts[k].workspace, receipts[k].key) == k;
  }

  lemma ClaimKeepsBook(s: System, step: Step)
    requires Booked(s) && step.Claim?
    ensures Booked(Next(s, step)) && Evolves(s.receipts, Next(s, step).receipts)
  {
    var Claim(w, q, owner, now) := step;
    var (receipts, claim) := ClaimIn(s.receipts, Candidate(q, owner, now), LEASE_TTL);
    if WorkerOf(s, w) == Idle && claim.decision == Acquired {
      GrantKeepsBook(s, w, q, owner, now);
    } else if WorkerOf(s, w) == Idle && claim.decision == Replay {
      AppendKeepsBook(s, Next(s, step), Replayed(RecordKey(q.workspace, q.key), w, claim.receipt));
    }
  }

  lemma FinishKeepsBook(s: System, w: nat, now: int)
    requires Booked(s) && WorkerOf(s, w).Executed?
    requires var Executed(r, o) := s.workers[w];
      var k := RecordKey(r.workspace, r.key);
      k in s.receipts && HoldsLease(CompletionOf(r, o, now), s.receipts[k])
    ensures var t := Next(s, Complete(w, now)); Booked(t) && Evolves(s.receipts, t.receipts)
  {
    var Executed(r, o) := s.workers[w];
    var k := RecordKey(r.workspace, r.key);
    var e := Finished(k, w, r.token, o);
    FinishIsNext(s, w, now);
    FinishedEntry(s, k, r, o, now, e);
    FinishKeepsIndex(s.receipts, CompletionOf(r, o, now), k);
    hide Indexed, EntriesFit, TerminalsFinished, WorkersKnow, FinishedIn, Knows, EntryFits, Next;
    AppendKeepsBook(s, Next(s, Complete(w, now)), e);
  }

  lemma FinishIsNext(s: System, w: nat, now: int)
    requires Booked(s) && WorkerOf(s, w).Executed?
    requires var Executed(r, o) := s.workers[w];
      var k := RecordKey(r.workspace, r.key);
      k in s.receipts && HoldsLease(CompletionOf(r, o, now), s.receipts[k])
    ensures var Executed(r, o) := s.workers[w];
      var k := RecordKey(r.workspace, r.key);
      Next(s, Complete(w, now)) == System(s.receipts[k := Finish(s.receipts[k], CompletionOf(r, o, now))],
                                          s.workers[w := Idle], s.log + [Finished(k, w, r.token, o)])
  {
    var Executed(r, o) := s.workers[w];
    assert Knows(s, w, r);
    CompleteInAt(s.receipts, CompletionOf(r, o, now), RecordKey(r.workspace, r.key));
  }

  lemma FinishedEntry(s: System, k: string, r: Receipt, o: Outcome, now: int, e: Entry)
    requires k in s.receipts && e.Finished? && e.record == k && e.outcome == o && e.token == r.token
    requires HoldsLease(CompletionOf(r, o, now), s.receipts[k])
    ensures FinishedIn(s.log + [e], k, Finish(s.receipts[k], CompletionOf(r, o, now)))
  {
    assert (s.log + [e])[|s.log|] == e;
  }

  lemma FinishKeepsIndex(receipts: Receipts, c: Completion, k: string)
    requires Indexed(receipts) && k in receipts && HoldsLease(c, receipts[k])
    ensures Indexed(receipts[k := Finish(receipts[k], c)]) && Evolves(receipts, receipts[k := Finish(receipts[k], c)])
  {
  }

  lemma CompleteKeepsBook(s: System, step: Step)
    requires Booked(s) && step.Complete?
    ensures Booked(Next(s, step)) && Evolves(s.receipts, Next(s, step).receipts)
  {
    var Complete(w, now) := step;
    if WorkerOf(s, w).Executed? {
      var Executed(r, o) := s.workers[w];
      assert Knows(s, w, r);
      var k := RecordKey(r.workspace, r.key);
      CompleteInAt(s.receipts, CompletionOf(r, o, now), k);
      var t := Next(s, step);
      if HoldsLease(CompletionOf(r, o, now), s.receipts[k]) {
        FinishKeepsBook(s, w, now);
      } else {
        forall w' | w' in t.workers && !t.workers[w'].Idle? ensures Knows(t, w', t.workers[w'].receipt) {
          assert Knows(s, w', s.workers[w'].receipt);
        }
      }
    }
  }

  lemma LocalKeepsBook(s: System, step: Step)
    requires Booked(s) && (step.Execute? || step.Crash?)
    ensures Booked(Next(s, step)) && Evolves(s.receipts, Next(s, step).receipts)
  {
    var t := Next(s, step);
    forall i | 0 <= i < |t.log| ensures EntryFits(t, t.log[i]) {
      assert EntryFits(s, s.log[i]);
    }
    forall w | w in t.workers && !t.workers[w].Idle? ensures Knows(t, w, t.workers[w].receipt) {
      assert w in s.workers && Knows(s, w, s.workers[w].receipt);
    }
  }

  lemma StepKeepsBook(s: System, step: Step)
    requires Booked(s)
    ensures Booked(Next(s, step)) && Evolves(s.receipts, Next(s, step).receipts)
  {
    match step
    case Claim(_, _, _, _) => ClaimKeepsBook(s, step);
    case Complete(_, _) => CompleteKeepsBook(s, step);
    case _ => LocalKeepsBook(s, step);
  }

  // ---- the log stays safe

  lemma AppendKeepsReplays(log: seq<Entry>, e: Entry)
    requires ReplaysRepeat(log)
    requires e.Replayed? ==> ReplayedAfter(log + [e], |log|)
    ensures ReplaysRepeat(log + [e])
  {
    var more := log + [e];
    forall j | 0 <= j < |more| && more[j].Replayed? ensures ReplayedAfter(more, j) {
      if j < |log| {
        assert more[j] == log[j] && ReplayedAfter(log, j);
        var i :| 0 <= i < j && log[i].Finished? && log[i].record == log[j].record
                 && AnswersLike(log[j].receipt, log[i].outcome, ReceiptId(log[j].record));
        assert more[i] == log[i];
      }
    }
  }

  lemma AppendKeepsFinished(s: System, e: Entry)
    requires EntriesFit(s) && FinishedOnceByNewest(s.log)
    requires e.Granted? && e.record in s.receipts ==> s.receipts[e.record].status == Processing
    requires e.Finished? ==>
      && e.record in s.receipts && s.receipts[e.record].status == Processing && s.receipts[e.record].token == e.token
      && GrantedBefore(s.log, |s.log|, e.record, e.w, e.token)
    ensures FinishedOnceByNewest(s.log + [e])
  {
    var log, more := s.log, s.log + [e];
    forall i | 0 <= i < |log| && log[i].record == e.record && !e.Replayed?
      ensures !log[i].Finished? && (e.Finished? && log[i].Granted? ==> log[i].token <= e.token)
    {
      assert EntryFits(s, log[i]);
    }
    forall j | 0 <= j < |more| && more[j].Finished?
      ensures GrantedBefore(more, j, more[j].record, more[j].w, more[j].token)
    {
      if j < |log| {
        assert more[j] == log[j];
        var i :| 0 <= i < j && log[i] == Granted(log[j].record, log[j].w, log[j].token);
        assert more[i] == log[i];
      } else {
        var i :| 0 <= i < |log| && log[i] == Granted(e.record, e.w, e.token);
        assert more[i] == log[i];
      }
    }
  }

  lemma AppendKeepsTokens(s: System, e: Entry)
    requires EntriesFit(s) && TokensRise(s.log)
    requires e.Granted? && e.record in s.receipts ==> e.token > s.receipts[e.record].token
    ensures TokensRise(s.log + [e])
  {
    if e.Granted? {
      forall i | 0 <= i < |s.log| && s.log[i].Granted? && s.log[i].record == e.record ensures s.log[i].token < e.token {
        assert EntryFits(s, s.log[i]);
      }
    }
  }

  /** The answer a terminal receipt gives repeats the completion in the log. */
  lemma ReplayRepeats(log: seq<Entry>, k: string, w: nat, r: Receipt)
    requires FinishedIn(log, k, r) && r.id == ReceiptId(k)
    ensures ReplayedAfter(log + [Replayed(k, w, r)], |log|)
  {
    var more := log + [Replayed(k, w, r)];
    var i :| 0 <= i < |log| && log[i].Finished? && log[i].record == k && log[i].token == r.token
             && r.status == StatusOf(log[i].outcome) && r.result == Some(Encode(log[i].outcome));
    HeldOutcomeAnswers(r, log[i].outcome, k);
    assert more[i] == log[i];
  }

  lemma StepKeepsSafe(s: System, step: Step)
    requires Inv(s)
    ensures Safe(Next(s, step).log)
  {
    var t := Next(s, step);
    if t.log != s.log {
      if step.Claim? {
        var Claim(w, q, owner, now) := step;
        var k := RecordKey(q.workspace, q.key);
        var (receipts, claim) := ClaimIn(s.receipts, Candidate(q, owner, now), LEASE_TTL);
        if claim.decision == Replay { ReplayRepeats(s.log, k, w, s.receipts[k]); }
      } else {
        var Executed(r, o) := s.workers[step.w];
        assert Knows(s, step.w, r);
        CompleteInAt(s.receipts, CompletionOf(r, o, step.now), RecordKey(r.workspace, r.key));
      }
      var e := t.log[|s.log|];
      assert t.log == s.log + [e];
      AppendKeepsTokens(s, e);
      AppendKeepsFinished(s, e);
      AppendKeepsReplays(s.log, e);
    }
  }

  lemma StepKeepsInv(s: System, step: Step)
    requires Inv(s)
    ensures Inv(Next(s, step)) && Evolves(s.receipts, Next(s, step).receipts)
  {
    StepKeepsBook(s, step);
    StepKeepsSafe(s, step);
  }

  lemma {:induction false} RunKeepsInv(s: System, steps: seq<Step>)
    requires Inv(s)
    ensures Inv(Run(s, steps)) && Evolves(s.receipts, Run(s, steps).receipts)
  {
    if steps != [] {
      RunKeepsInv(s, steps[..|steps| - 1]);
      StepKeepsInv(Run(s, steps[..|steps| - 1]), steps[|steps| - 1]);
    }
  }

  /** Safety of every run: tokens rise, a record is finished at most once and by
      the holder of its newest token, and every replay repeats that completion. */
  lemma EveryRunIsSafe(steps: seq<Step>)
    ensures Safe(Run(START, steps).log)
  {
    RunKeepsInv(START, steps);
  }

  // ---- how long a grant lasts

  /** Nothing in a run ends the grant of a record made at clock `t`: no claim of
      the record comes when its lease is over, and it is not completed. */
  ghost predicate Within(s: System, steps: seq<Step>, record: string, t: int)
    decreases |steps|
  {
    steps == [] ||
    var before, step := steps[..|steps| - 1], steps[|steps| - 1];
    && Within(s, before, record, t)
    && (step.Claim? && RecordKey(step.request.workspace, step.request.key) == record ==> step.now < t + 30)
    && (step.Complete? ==> !Finishes(Run(s, before), step, record))
  }

  ghost predicate Finishes(s: System, step: Step, record: string) {
    var log := Next(s, step).log;
    |log| > |s.log| && log[|s.log|].Finished? && log[|s.log|].record == record
  }

  lemma StepKeepsGrant(s: System, step: Step, record: string, t: int)
    requires Inv(s) && record in s.receipts && s.receipts[record].status == Processing
    requires s.receipts[record].expires == t + 30
    requires step.Claim? && RecordKey(step.request.workspace, step.request.key) == record ==> step.now < t + 30
    requires step.Complete? ==> !Finishes(s, step, record)
    ensures record in Next(s, step).receipts && Next(s, step).receipts[record] == s.receipts[record]
  {
    if step.Complete? && WorkerOf(s, step.w).Executed? {
      var Executed(r, o) := s.workers[step.w];
      assert Knows(s, step.w, r);
      CompleteInAt(s.receipts, CompletionOf(r, o, step.now), RecordKey(r.workspace, r.key));
    }
  }

  lemma {:induction false} RunKeepsGrant(s: System, steps: seq<Step>, record: string, t: int)
    requires Inv(s) && record in s.receipts && s.receipts[record].status == Processing
    requires s.receipts[record].expires == t + 30 && Within(s, steps, record, t)
    ensures record in Run(s, steps).receipts && Run(s, steps).receipts[record] == s.receipts[record]
  {
    if steps != [] {
      var before := steps[..|steps| - 1];
      RunKeepsGrant(s, before, record, t);
      RunKeepsInv(s, before);
      StepKeepsGrant(Run(s, before), steps[|steps| - 1], record, t);
    }
  }

  /** What a granted claim stores, and what a repeat of the request by a free worker
      then meets. */
  lemma GrantStores(s: System, w: nat, q: Request, owner: string, t: int)
    requires WorkerOf(s, w) == Idle && ClaimIn(s.receipts, Candidate(q, owner, t), LEASE_TTL).1.decision == Acquired
    ensures Leased(Next(s, Claim(w, q, owner, t)), q, t)
  {
    GrantLeases(s.receipts, Candidate(q, owner, t));
  }

  /** The request's record is held under a lease that was granted at clock `t`. */
  ghost predicate Leased(s: System, q: Request, t: int) {
    var record := RecordKey(q.workspace, q.key);
    && record in s.receipts && s.receipts[record].status == Processing
    && s.receipts[record].fingerprint == q.fingerprint && s.receipts[record].expires == t + 30
  }

  lemma StartFits()
    ensures Inv(START)
  {
  }

  lemma LeaseLasts(held: System, steps: seq<Step>, q: Request, t: int)
    requires Inv(held) && Leased(held, q, t) && Within(held, steps, RecordKey(q.workspace, q.key), t)
    ensures Leased(Run(held, steps), q, t)
    ensures var record := RecordKey(q.workspace, q.key);
      Run(held, steps).receipts[record] == held.receipts[record]
  {
    RunKeepsGrant(held, steps, RecordKey(q.workspace, q.key), t);
    hide Inv, Run, Within;
  }

  lemma LeaseMeets(s: System, q: Request, t: int, v: nat, other: string, u: int)
    requires Leased(s, q, t) && WorkerOf(s, v) == Idle
    ensures var record := RecordKey(q.workspace, q.key);
      var end := Next(s, Claim(v, q, other, u));
      if u < t + 30 then end == s
      else && end.log == s.log + [Granted(record, v, s.receipts[record].token + 1)] && WorkerOf(end, v).Holding?
           && Leased(end, q, u) && end.receipts[record].owner == other
  {
  }

  /** In every run, after a worker was granted a record at clock `t` and while
      nothing ends that grant, a repeat of the request by a free worker is turned
      away before `t + 30` and takes the record over, with the next token, from
      then on. */
  lemma GrantHoldsInRuns(before: seq<Step>, w: nat, q: Request, owner: string, t: int, steps: seq<Step>,
                         v: nat, other: string, u: int)
    requires var s := Run(START, before);
      WorkerOf(s, w) == Idle && ClaimIn(s.receipts, Candidate(q, owner, t), LEASE_TTL).1.decision == Acquired
    requires var held := Next(Run(START, before), Claim(w, q, owner, t));
      Within(held, steps, RecordKey(q.workspace, q.key), t) && WorkerOf(Run(held, steps), v) == Idle
    ensures var record := RecordKey(q.workspace, q.key);
      var held := Next(Run(START, before), Claim(w, q, owner, t));
      var later := Run(held, steps);
      var end := Next(later, Claim(v, q, other, u));
      && Leased(held, q, t)
      && if u < t + 30 then end == later
         else && end.log == later.log + [Granted(record, v, held.receipts[record].token + 1)]
              && WorkerOf(end, v).Holding? && Leased(end, q, u) && end.receipts[record].owner == other
  {
    hide *;
    var s := Run(START, before);
    var held := Next(s, Claim(w, q, owner, t));
    StartFits();
    RunKeepsInv(START, before);
    GrantStores(s, w, q, owner, t);
    StepKeepsInv(s, Claim(w, q, owner, t));
    LeaseLasts(held, steps, q, t);
    LeaseMeets(Run(held, steps), q, t, v, other, u);
  }

  // ---- how often the owner's callback runs

  /** One call of the owner's callback, under a grant. */
  datatype Call = Call(record: string, w: nat, token: int)

  ghost function CallAt(s: System, step: Step): seq<Call> {
    if step.Execute? && WorkerOf(s, step.w).Holding? then
      var r := s.workers[step.w].receipt;
      [Call(RecordKey(r.workspace, r.key), step.w, r.token)]
    else []
  }

  /** All calls of the callbacks in a run. */
  ghost function Calls(steps: seq<Step>): seq<Call> {
    if steps == [] then []
    else
      var before := steps[..|steps| - 1];
      Calls(before) + CallAt(Run(START, before), steps[|steps| - 1])
  }

  ghost predicate TokensDiffer(calls: seq<Call>) {
    forall i, j :: 0 <= i < j < |calls| && calls[i].record == calls[j].record ==> calls[i].token != calls[j].token
  }

  /** Calls stand under grants, no two under one, and none under a grant that a
      worker has yet to use. */
  ghost predicate CallsFit(s: System, calls: seq<Call>) {
    && (forall i :: 0 <= i < |calls| ==>
          GrantedBefore(s.log, |s.log|, calls[i].record, calls[i].w, calls[i].token))
    && TokensDiffer(calls)
    && (forall w, i :: WorkerOf(s, w).Holding? && 0 <= i < |calls| ==> !Uses(calls[i], s.workers[w].receipt))
  }

  predicate Uses(call: Call, r: Receipt) {
    call.record == RecordKey(r.workspace, r.key) && call.token == r.token
  }

  lemma GrantsStay(log: seq<Entry>, more: seq<Entry>, record: string, w: nat, token: int)
    requires log <= more && GrantedBefore(log, |log|, record, w, token)
    ensures GrantedBefore(more, |more|, record, w, token)
  {
    var i :| 0 <= i < |log| && log[i] == Granted(record, w, token);
    assert more[i] == log[i];
  }

  /** A grant belongs to one worker. */
  lemma GrantIsOnes(log: seq<Entry>, record: string, w: nat, w': nat, token: int)
    requires TokensRise(log)
    requires GrantedBefore(log, |log|, record, w, token) && GrantedBefore(log, |log|, record, w', token)
    ensures w == w'
  {
  }

  lemma ExecuteKeepsCalls(s: System, w: nat, o: Outcome, calls: seq<Call>)
    requires Inv(s) && CallsFit(s, calls)
    ensures CallsFit(Next(s, Execute(w, o)), calls + CallAt(s, Execute(w, o)))
  {
    if WorkerOf(s, w).Holding? {
      var t, r := Next(s, Execute(w, o)), s.workers[w].receipt;
      var call := Call(RecordKey(r.workspace, r.key), w, r.token);
      var more := calls + [call];
      assert Knows(s, w, r);
      forall w', i | WorkerOf(t, w').Holding? && 0 <= i < |more| ensures !Uses(more[i], t.workers[w'].receipt) {
        assert WorkerOf(s, w').Holding? && w' != w;
        if i == |calls| {
          assert Knows(s, w', s.workers[w'].receipt);
          if Uses(call, s.workers[w'].receipt) { GrantIsOnes(s.log, call.record, w, w', call.token); }
        }
      }
      assert forall i :: 0 <= i < |calls| ==> !Uses(calls[i], r);
    }
  }

  lemma OthersKeepCalls(s: System, step: Step, calls: seq<Call>)
    requires Inv(s) && CallsFit(s, calls) && !step.Execute?
    ensures CallsFit(Next(s, step), calls)
  {
    hide Next, Inv;
    var t := Next(s, step);
    LogGrows(s, step);
    forall i | 0 <= i < |calls|
      ensures GrantedBefore(t.log, |t.log|, calls[i].record, calls[i].w, calls[i].token)
    {
      GrantsStay(s.log, t.log, calls[i].record, calls[i].w, calls[i].token);
    }
    forall w, i | WorkerOf(t, w).Holding? && 0 <= i < |calls| ensures !Uses(calls[i], t.workers[w].receipt) {
      HoldersStay(s, step, w);
      if !WorkerOf(s, w).Holding? { NewGrantUnused(s, step, calls[i]); }
    }
  }

  lemma LogGrows(s: System, step: Step)
    ensures s.log <= Next(s, step).log
  {
  }

  /** Only a claim makes a worker hold a grant. */
  lemma HoldersStay(s: System, step: Step, w: nat)
    requires WorkerOf(Next(s, step), w).Holding?
    ensures (WorkerOf(s, w).Holding? && Next(s, step).workers[w] == s.workers[w])
         || (step.Claim? && step.w == w && WorkerOf(s, w).Idle?)
  {
  }

  /** A new grant carries a token that no call has used. */
  lemma NewGrantUnused(s: System, step: Step, call: Call)
    requires Inv(s) && GrantedBefore(s.log, |s.log|, call.record, call.w, call.token)
    requires step.Claim? && WorkerOf(s, step.w).Idle? && WorkerOf(Next(s, step), step.w).Holding?
    ensures !Uses(call, Next(s, step).workers[step.w].receipt)
  {
    var i :| 0 <= i < |s.log| && s.log[i] == Granted(call.record, call.w, call.token);
    assert EntryFits(s, s.log[i]);
  }

  lemma {:induction false} RunKeepsCalls(steps: seq<Step>)
    ensures CallsFit(Run(START, steps), Calls(steps))
  {
    if steps != [] {
      var before, step := steps[..|steps| - 1], steps[|steps| - 1];
      RunKeepsCalls(before);
      RunKeepsInv(START, before);
      hide Next, CallsFit, Inv;
      if step.Execute? {
        ExecuteKeepsCalls(Run(START, before), step.w, step.outcome, Calls(before));
      } else {
        OthersKeepCalls(Run(START, before), step, Calls(before));
        assert Calls(steps) == Calls(before) + [];
      }
    }
  }

  function CallCount(calls: seq<Call>, record: string): nat {
    if calls == [] then 0
    else CallCount(calls[..|calls| - 1], record) + if calls[|calls| - 1].record == record then 1 else 0
  }

  function GrantCount(log: seq<Entry>, record: string): nat {
    if log == [] then 0
    else
      var e := log[|log| - 1];
      GrantCount(log[..|log| - 1], record) + if e.Granted? && e.record == record then 1 else 0
  }

  ghost function CalledTokens(calls: seq<Call>, record: string): set<int> {
    set i | 0 <= i < |calls| && calls[i].record == record :: calls[i].token
  }

  ghost function GrantedTokens(log: seq<Entry>, record: string): set<int> {
    set i | 0 <= i < |log| && log[i].Granted? && log[i].record == record :: log[i].token
  }

  lemma {:induction false} CallsHaveTokens(calls: seq<Call>, record: string)
    requires TokensDiffer(calls)
    ensures CallCount(calls, record) == |CalledTokens(calls, record)|
  {
    if calls != [] {
      var before, last := calls[..|calls| - 1], calls[|calls| - 1];
      CallsHaveTokens(before, record);
      if last.record == record {
        assert CalledTokens(calls, record) == CalledTokens(before, record) + {last.token};
        assert last.token !in CalledTokens(before, record);
      } else {
        assert CalledTokens(calls, record) == CalledTokens(before, record);
      }
      hide TokensDiffer;
    }
  }

  lemma {:induction false} GrantsCoverTokens(log: seq<Entry>, record: string)
    ensures |GrantedTokens(log, record)| <= GrantCount(log, record)
  {
    if log != [] {
      var before, e := log[..|log| - 1], log[|log| - 1];
      GrantsCoverTokens(before, record);
      if e.Granted? && e.record == record {
        assert GrantedTokens(log, record) == GrantedTokens(before, record) + {e.token};
      } else {
        assert GrantedTokens(log, record) == GrantedTokens(before, record);
      }
    }
  }

  lemma SubsetIsSmaller<T>(a: set<T>, b: set<T>)
    requires a <= b
    ensures |a| <= |b|
  {
    assert b == a + (b - a);
  }

  /** In every run the callback of a record is called at most once a grant, by
      the worker it was granted to: a second call needs a take-over. */
  lemma {:induction false} CallsWithinGrants(steps: seq<Step>, record: string)
    ensures var calls, log := Calls(steps), Run(START, steps).log;
      && CallCount(calls, record) <= GrantCount(log, record)
      && (forall i :: 0 <= i < |calls| ==> GrantedBefore(log, |log|, calls[i].record, calls[i].w, calls[i].token))
      && TokensDiffer(calls)
  {
    RunKeepsCalls(steps);
    var calls, log := Calls(steps), Run(START, steps).log;
    CallsHaveTokens(calls, record);
    GrantsCoverTokens(log, record);
    forall t | t in CalledTokens(calls, record) ensures t in GrantedTokens(log, record) {
      var i :| 0 <= i < |calls| && calls[i].record == record && calls[i].token == t;
      var k :| 0 <= k < |log| && log[k] == Granted(record, calls[i].w, t);
      assert log[k].Granted? && log[k].record == record && log[k].token == t;
    }
    SubsetIsSmaller(CalledTokens(calls, record), GrantedTokens(log, record));
  }

  /** Whatever happens after a run, each receipt keeps its request, its token
      never falls, and a terminal receipt never changes again. */
  lemma {:induction false} EveryReceiptEvolves(before: seq<Step>, after: seq<Step>)
    ensures Evolves(Run(START, before).receipts, Run(Run(START, before), after).receipts)
  {
    RunKeepsInv(START, before);
    RunKeepsInv(Run(START, before), after);
  }

  /** Once a record is finished, a repeat of its request never executes again:
      it changes no receipt and answers like the completion. A different
      request under the same key is refused. */
  lemma {:induction false} FinishedRequestsOnlyReplay(steps: seq<Step>, i: nat, w: nat, q: Request, owner: string,
                                                      now: int)
    requires var s := Run(START, steps);
      i < |s.log| && s.log[i].Finished? && s.log[i].record == RecordKey(q.workspace, q.key) && WorkerOf(s, w) == Idle
    ensures var s := Run(START, steps);
      var t := Next(s, Claim(w, q, owner, now));
      var record := RecordKey(q.workspace, q.key);
      && record in s.receipts && t.receipts == s.receipts && WorkerOf(t, w) == Idle
      && if s.receipts[record].fingerprint == q.fingerprint
         then |t.log| == |s.log| + 1 && t.log[|s.log|].Replayed?
              && AnswersLike(t.log[|s.log|].receipt, s.log[i].outcome, ReceiptId(record))
         else t.log == s.log
  {
    var s := Run(START, steps);
    RunKeepsInv(START, steps);
    assert EntryFits(s, s.log[i]);
    var record := RecordKey(q.workspace, q.key);
    var r := s.receipts[record];
    assert FinishedIn(s.log, record, r);
    var j :| 0 <= j < |s.log| && s.log[j].Finished? && s.log[j].record == record && s.log[j].token == r.token
             && r.status == StatusOf(s.log[j].outcome) && r.result == Some(Encode(s.log[j].outcome));
    assert i == j;
    HeldOutcomeAnswers(r, s.log[i].outcome, record);
  }

  // ---------------------------------------------------------------------
  // The service: one call is one undisturbed run of a worker
  // ---------------------------------------------------------------------

  const KEY_REUSED := AppError("conflict", "backend.idempotency_key_reused")
  const IN_PROGRESS := AppError("conflict", "backend.idempotency_in_progress")
  const LEASE_LOST := AppError("conflict", "backend.idempotency_lease_lost")

  datatype Answer = Refused(error: AppError) | Answered(response: Response)

  class Service {
    const repository: MemoryRepository

    constructor (repository: MemoryRepository)
      ensures this.repository == repository
    {
      this.repository := repository;
    }

    /** `result` is what the owner's callback returns if it is called. The
        receipts end as the worker's own claim, execute and complete steps
        leave them, and the answer is what the log of that run records. */
    method ExecuteManaged(reader: Reader, request: Request, owner: string, startedAt: int, result: Outcome,
                          finishedAt: int)
      returns (answer: Answer)
      requires Indexed(repository.receipts)
      modifies repository
      ensures Indexed(repository.receipts)
      ensures
        var start := System(old(repository.receipts), map[], []);
        var end := Run(start, [Claim(0, request, owner, startedAt), Execute(0, result), Complete(0, finishedAt)]);
        var record := RecordKey(request.workspace, request.key);
        && repository.receipts == end.receipts
        && if |end.log| == 1 && end.log[0].Replayed? then answer == Answered(ReplayResult(reader, end.log[0].receipt))
           else if |end.log| == 2 then
             && answer == Answered(Response(result.value, ReceiptId(record), result.hash, false,
                                            if result.value == Unmarshalable then Some(RESULT_INVALID)
                                            else result.error))
             && answer.response == Live(result, ReceiptId(record))
           else answer.Refused? && repository.receipts == old(repository.receipts)
      ensures
        var record := RecordKey(request.workspace, request.key);
        record in old(repository.receipts) ==>
          var current := old(repository.receipts)[record];
          && (answer == Refused(KEY_REUSED) <==> current.fingerprint != request.fingerprint)
          && (answer == Refused(IN_PROGRESS) <==>
              current.fingerprint == request.fingerprint && current.status == Processing && startedAt < current.expires)
    {
      ghost var steps := [Claim(0, request, owner, startedAt), Execute(0, result), Complete(0, finishedAt)];
      ghost var start := System(repository.receipts, map[], []);
      ghost var one, two := Next(start, steps[0]), Next(Next(start, steps[0]), steps[1]);
      assert Run(start, steps) == Next(two, steps[2]) by { RunOfThree(start, steps); }
      var receipt := Candidate(request, owner, startedAt);
      var claim := repository.Claim(receipt, LEASE_TTL);
      match claim.decision
      case FingerprintConflict => return Refused(KEY_REUSED);
      case InProgress => return Refused(IN_PROGRESS);
      case Replay => return Answered(ReplayResult(reader, claim.receipt));
      case Acquired =>
        var encoded, status, error := Encode(result), Succeeded, result.error;
        if result.value == Unmarshalable { error := Some(RESULT_INVALID); }
        if error != None { status := FailedTerminal; }
        var r := claim.receipt;
        ghost var record := RecordKey(request.workspace, request.key);
        assert r.id == ReceiptId(record) && RecordKey(r.workspace, r.key) == record;
        var completion := Completion(r.id, r.workspace, r.owner, r.token, status, encoded, finishedAt);
        CompleteInAt(repository.receipts, completion, record);
        var closed := repository.Complete(completion);
        if !closed.Closed? { return Refused(LEASE_LOST); }
        return Answered(Response(result.value, closed.receipt.id, result.hash, false, error));
    }
  }

  lemma RunOfThree(s: System, steps: seq<Step>)
    requires |steps| == 3
    ensures Run(s, steps) == Next(Next(Next(s, steps[0]), steps[1]), steps[2])
  {
    var two, one := steps[..2], steps[..1];
    assert two[..1] == one && one[..0] == [];
    assert Run(s, one) == Next(Run(s, []), steps[0]);
    assert Run(s, two) == Next(Run(s, one), steps[1]);
  }

  // ---------------------------------------------------------------------
  // Upserts under an expected resource hash
  // ---------------------------------------------------------------------

  datatype Read = Failed(error: AppError) | Missing | Found(resource: string)

  /** The fingerprint of a resource is treated as injective. */
  function ResourceHash(capability: string, id: string, read: Read): string
    requires !read.Failed?
  {
    if read.Missing? then "empty" else "sha256:" + capability + "\0" + id + "\0" + read.resource
  }

  /** The callback `ExecuteUpsert` hands to the managed execution: read,
      compare, execute, read again. `executed` says whether the owner ran. */
  function Upsert(capability: string, id: string, expected: string, before: Read,
                  value: OwnerValue, failure: Option<AppError>, after: Read): (r: (Outcome, bool))
  {
    if before.Failed? then (Outcome(Absent, "", Some(before.error)), false)
    else if (if expected == "" then "empty" else expected) != ResourceHash(capability, id, before) then
      (Outcome(Absent, "", Some(AppError("conflict", "backend.authoring.resource_hash_conflict"))), false)
    else if failure != None then (Outcome(Absent, "", failure), true)
    else if after.Failed? then (Outcome(Absent, "", Some(after.error)), true)
    else if after.Missing? then
      (Outcome(Absent, "", Some(AppError("unavailable", "backend.authoring.resource_projection_unavailable"))), true)
    else (Outcome(value, ResourceHash(capability, id, after), None), true)
  }

  /** What an upsert reports. The owner runs exactly when the resource was read and
      is the expected one, where no expectation means that there is none; the first
      error on the way is the outcome's, and only an owner that succeeded and whose
      resource was read back has its value and the new hash returned. */
  lemma UpsertReports(capability: string, id: string, expected: string, before: Read,
                      value: OwnerValue, failure: Option<AppError>, after: Read)
    ensures var (outcome, executed) := Upsert(capability, id, expected, before, value, failure, after);
      && (executed <==> match before
                        case Failed(_) => false
                        case Missing => expected == "" || expected == "empty"
                        case Found(_) => expected == ResourceHash(capability, id, before))
      && (before.Failed? ==> outcome.error == Some(before.error))
      && (!before.Failed? && !executed ==>
            outcome.error == Some(AppError("conflict", "backend.authoring.resource_hash_conflict")))
      && (executed && failure != None ==> outcome.error == failure)
      && (executed && failure == None && after.Failed? ==> outcome.error == Some(after.error))
      && (outcome.error == None <==> executed && failure == None && after.Found?)
      && if outcome.error == None then outcome.value == value && outcome.hash == ResourceHash(capability, id, after)
         else outcome.value == Absent && outcome.hash == ""
  {
    if before.Found? { assert ResourceHash(capability, id, before)[0] == 's' && "empty"[0] == 'e'; }
  }

  /** The hash one upsert returns is the ticket for the next: presented later
      it lets the owner run exactly when the resource still is what the first
      upsert left. */
  lemma UpsertHashIsATicket(capability: string, id: string, expected: string, before: Read, value: OwnerValue,
                            after: Read, current: Read, value': OwnerValue, failure: Option<AppError>, after': Read)
    requires Upsert(capability, id, expected, before, value, None, after).0.error == None
    ensures
      var ticket := Upsert(capability, id, expected, before, value, None, after).0.hash;
      Upsert(capability, id, ticket, current, value', failure, after').1 <==> current == after
  {
    var prefix := "sha256:" + capability + "\0" + id + "\0";
    var ticket := prefix + after.resource;
    if current.Found? {
      assert ticket[|prefix|..] == after.resource;
      assert (prefix + current.resource)[|prefix|..] == current.resource;
    }
    assert ticket[0] == 's' && "empty"[0] == 'e';
  }
}
