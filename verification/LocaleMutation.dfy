/** Changing the current user's locale under an idempotency key. Workers of one
    key share a fenced receipt; the user row is changed by a compare-and-set on
    its version. A worker that takes over after a crash recognises a change that
    was already made by the version and the locale it finds. */
module LocaleMutation {
  import opened Options

  datatype Kind = Internal | BadRequest | Forbidden | NotFound | Conflict
  datatype User = User(locale: string, version: int)
  datatype Request = Request(locale: string, expected: int)

  datatype Stored = Profile(me: User) | Failure(kind: Kind, code: string)
  datatype Status = Processing | Succeeded | FailedTerminal
  datatype Receipt = Receipt(status: Status, owner: string, expires: int, token: int, result: Option<Stored>)

  datatype Worker =
    | Idle
    | Taking                                  // took the receipt over, about to read it back
    | Claimed(token: int)                     // about to read the profile
    | Deciding(token: int)                    // about to compare and set
    | Changed(token: int)                     // about to read the profile again
    | Answering(token: int, owner: string, stored: Stored)   // about to complete

  /** `past` remembers the locale the user had at each version, and `applied`
      the tokens whose compare-and-set succeeded; neither is stored by the
      server. `owners` is part of the receipt a worker holds: the owner under
      whom a token was granted. */
  datatype World = World(
    user: Option<User>, past: map<int, string>, receipt: Option<Receipt>,
    workers: map<nat, Worker>, owners: map<int, string>, applied: seq<int>)

  /** How the compare-and-set can break: not at all, before its write, or after
      it, so that the caller cannot tell. */
  datatype Fault = NoFault | BeforeWrite | AfterWrite

  /** A claim inserts the receipt, or takes it over by one update and reads the
      row back by another statement: what it reads may be a later worker's. */
  datatype Step =
    | Claim(w: nat, owner: string, now: int)
    | ReadBack(w: nat)
    | Read(w: nat)
    | CompareAndSet(w: nat, fault: Fault)
    | ReadAgain(w: nat)
    | Complete(w: nat)
    | Crash(w: nat)
    | Edit(user: User)      // some other change to the same user
    | Remove                // the user is deleted

  const LEASE_TTL := 30

  function WorkerOf(s: World, w: nat): Worker {
    if w in s.workers then s.workers[w] else Idle
  }

  function Grant(s: World, w: nat, token: int, owner: string, now: int): World {
    s.(receipt := Some(Receipt(Processing, owner, now + LEASE_TTL, token, None)),
       workers := s.workers[w := if token == 1 then Claimed(token) else Taking], owners := s.owners[token := owner])
  }

  predicate AlreadyChanged(q: Request, token: int, before: User) {
    token > 1 && before.locale == q.locale && before.version == q.expected + 1
  }

  function OwnerOf(s: World, token: int): string {
    if token in s.owners then s.owners[token] else ""
  }

  function Next(q: Request, s: World, step: Step): World {
    match step
    case Claim(w, owner, now) =>
      if !WorkerOf(s, w).Idle? then s
      else if s.receipt == None then Grant(s, w, 1, owner, now)
      else
        var r := s.receipt.value;
        if r.status == Processing && now >= r.expires then Grant(s, w, r.token + 1, owner, now) else s
    case ReadBack(w) =>
      if !WorkerOf(s, w).Taking? || s.receipt == None then s
      else s.(workers := s.workers[w := Claimed(s.receipt.value.token)])
    case Read(w) =>
      if !WorkerOf(s, w).Claimed? then s
      else if s.user == None then s.(workers := s.workers[w := Idle])
      else
        var token := s.workers[w].token;
        s.(workers := s.workers[w :=
          if AlreadyChanged(q, token, s.user.value)
          then Answering(token, OwnerOf(s, token), Profile(s.user.value)) else Deciding(token)])
    case CompareAndSet(w, fault) =>
      if !WorkerOf(s, w).Deciding? then s
      else
        var token := s.workers[w].token;
        var matched := s.user.Some? && s.user.value.version == q.expected;
        var written := if matched && fault != BeforeWrite then
            var next := User(q.locale, q.expected + 1);
            s.(user := Some(next), past := s.past[next.version := next.locale], applied := s.applied + [token])
          else s;
        written.(workers := written.workers[w :=
          if fault != NoFault then Idle
          else if matched then Changed(token)
          else if s.user.Some?
          then Answering(token, OwnerOf(s, token), Failure(Conflict, "backend.identity.user_version_conflict"))
          else Answering(token, OwnerOf(s, token), Failure(NotFound, "backend.identity.user_not_found"))])
    case ReadAgain(w) =>
      if !WorkerOf(s, w).Changed? then s
      else
        var token := s.workers[w].token;
        s.(workers := s.workers[w :=
          if s.user == None then Idle else Answering(token, OwnerOf(s, token), Profile(s.user.value))])
    case Complete(w) =>
      if !WorkerOf(s, w).Answering? then s
      else
        var Answering(token, owner, stored) := s.workers[w];
        var holds := s.receipt.Some? && s.receipt.value.status == Processing
                     && s.receipt.value.owner == owner && s.receipt.value.token == token;
        var done := s.(workers := s.workers[w := Idle]);
        if !holds then done
        else done.(receipt := Some(s.receipt.value.(
          status := if stored.Profile? then Succeeded else FailedTerminal, result := Some(stored))))
    case Crash(w) => s.(workers := s.workers[w := Idle])
    case Edit(user) =>
      if s.user.Some? && user.version > s.user.value.version then
        s.(user := Some(user), past := s.past[user.version := user.locale])
      else s
    case Remove => s.(user := None)
  }

  function Run(q: Request, s: World, steps: seq<Step>): World
    decreases steps
  {
    if steps == [] then s else Run(q, Next(q, s, steps[0]), steps[1..])
  }

  function Start(user: User): World {
    World(Some(user), map[user.version := user.locale], None, map[], map[], [])
  }

  // ---- the invariant

  /** The user at version expected+1 had the requested locale. */
  ghost predicate Took(q: Request, s: World) {
    q.expected + 1 in s.past && s.past[q.expected + 1] == q.locale
  }

  ghost predicate HistoryFits(s: World) {
    s.user.Some? ==>
      && s.user.value.version in s.past && s.past[s.user.value.version] == s.user.value.locale
      && (forall v :: v in s.past ==> v <= s.user.value.version)
  }

  ghost predicate AppliedOnce(q: Request, s: World) {
    && |s.applied| <= 1
    && (s.applied != [] ==> Took(q, s) && (s.user.Some? ==> s.user.value.version > q.expected))
  }

  /** A stored profile is a state the user really had, at or after the change. */
  ghost predicate RealProfile(q: Request, s: World, me: User) {
    Took(q, s) && me.version > q.expected && me.version in s.past && s.past[me.version] == me.locale
  }

  /** The token a worker holds, or would read back now. */
  function TokenOf(s: World, worker: Worker): int {
    match worker
    case Idle => 0
    case Taking => if s.receipt == None then 0 else s.receipt.value.token
    case _ => worker.token
  }

  /** The first two tokens belong to one worker each; a later one may be read
      back by several. */
  ghost predicate Unspent(s: World, token: int) {
    token <= 2 ==> token !in s.applied
  }

  /** Without a take-over only the worker that made the change reports it. */
  ghost predicate Earned(s: World, token: int) {
    token > 1 || token in s.applied
  }

  ghost predicate WorkerFits(q: Request, s: World, worker: Worker) {
    match worker
    case Idle => true
    case Taking => Unspent(s, TokenOf(s, worker))
    case Claimed(token) => Unspent(s, token)
    case Deciding(token) => Unspent(s, token)
    case Changed(token) => token in s.applied && Took(q, s) && (s.user.Some? ==> s.user.value.version > q.expected)
    case Answering(token, _, stored) =>
      if stored.Profile? then RealProfile(q, s, stored.me) && Earned(s, token) else Unspent(s, token)
  }

  ghost predicate WorkersFit(q: Request, s: World) {
    forall w :: w in s.workers ==> WorkerFits(q, s, s.workers[w])
  }

  /** Tokens in use are never newer than the receipt's, and one of the first two
      is in use once; the worker that completed the receipt is done with it. */
  ghost predicate TokensFit(s: World) {
    (s.receipt.Some? ==> s.receipt.value.token >= 1) && TokensBounded(s) && TokensDistinct(s) && AppliedBounded(s)
  }

  ghost predicate Bounded(s: World, worker: Worker) {
    !worker.Idle? ==>
      && s.receipt.Some? && 1 <= TokenOf(s, worker) <= s.receipt.value.token
      && (worker.Taking? ==> s.receipt.value.token >= 2)
      && (s.receipt.value.status != Processing && s.receipt.value.token <= 2 ==>
            TokenOf(s, worker) < s.receipt.value.token)
  }

  ghost predicate TokensBounded(s: World) {
    forall w :: w in s.workers ==> Bounded(s, s.workers[w])
  }

  predicate Share(s: World, a: Worker, b: Worker) {
    !a.Idle? && !b.Idle? && TokenOf(s, a) == TokenOf(s, b)
  }

  ghost predicate TokensDistinct(s: World) {
    forall v, w :: v in s.workers && w in s.workers && v != w && Share(s, s.workers[v], s.workers[w]) ==>
                     TokenOf(s, s.workers[v]) > 2
  }

  ghost predicate AppliedBounded(s: World) {
    forall t :: t in s.applied ==> s.receipt.Some? && 1 <= t <= s.receipt.value.token
  }

  ghost predicate ReceiptFits(q: Request, s: World) {
    s.receipt.Some? ==>
      var r := s.receipt.value;
      && r.token >= 1
      && (r.status == Succeeded ==>
            r.result.Some? && r.result.value.Profile? && RealProfile(q, s, r.result.value.me) && Earned(s, r.token))
      && (r.status == FailedTerminal ==> r.result.Some? && r.result.value.Failure? && Unspent(s, r.token))
  }

  ghost predicate Inv(q: Request, s: World) {
    HistoryFits(s) && AppliedOnce(q, s) && WorkersFit(q, s) && TokensFit(s) && ReceiptFits(q, s)
  }

  /** A terminal receipt never changes, the past is never rewritten, and
      neither a version nor a token falls. */
  ghost predicate Evolves(s: World, t: World) {
    && s.past.Keys <= t.past.Keys && (forall v :: v in s.past ==> t.past[v] == s.past[v])
    && (t.user.Some? ==> s.user.Some? && t.user.value.version >= s.user.value.version)
    && s.applied <= t.applied
    && (s.receipt.Some? ==> t.receipt.Some? && t.receipt.value.token >= s.receipt.value.token
                            && (s.receipt.value.status != Processing ==> t.receipt == s.receipt))
  }

  lemma StepEvolves(q: Request, s: World, step: Step)
    requires Inv(q, s)
    ensures var t := Next(q, s, step); Evolves(s, t) && HistoryFits(t) && AppliedOnce(q, t)
  {
    hide WorkersFit, TokensBounded, TokensDistinct, AppliedBounded, ReceiptFits;
    StepGrows(q, s, step);
    hide Evolves;
  }

  lemma StepGrows(q: Request, s: World, step: Step)
    requires HistoryFits(s)
    ensures Evolves(s, Next(q, s, step))
  {
  }

  /** What a worker knows stays true while others act. */
  lemma WorkerUndisturbed(q: Request, s: World, t: World, worker: Worker)
    requires WorkerFits(q, s, worker) && Evolves(s, t)
    requires TokenOf(t, worker) == TokenOf(s, worker) || (worker.Taking? && TokenOf(t, worker) > 2)
    requires TokenOf(s, worker) <= 2 && TokenOf(s, worker) in t.applied ==> TokenOf(s, worker) in s.applied
    ensures WorkerFits(q, t, worker)
  {
  }

  predicate Acts(step: Step, w: nat) {
    !step.Edit? && !step.Remove? && step.w == w
  }

  lemma WriterFits(q: Request, s: World, w: nat, fault: Fault)
    requires Inv(q, s)
    ensures var t := Next(q, s, CompareAndSet(w, fault)); w in t.workers ==> WorkerFits(q, t, t.workers[w])
  {
    StepEvolves(q, s, CompareAndSet(w, fault));
    if w in s.workers { assert WorkerFits(q, s, s.workers[w]); }
    hide WorkersFit, TokensDistinct, TokensBounded, ReceiptFits, Evolves;
  }

  lemma ActorFits(q: Request, s: World, step: Step, w: nat)
    requires Inv(q, s) && Acts(step, w)
    ensures var t := Next(q, s, step); w in t.workers ==> WorkerFits(q, t, t.workers[w])
  {
    if step.CompareAndSet? {
      WriterFits(q, s, w, step.fault);
    } else {
      if w in s.workers { assert WorkerFits(q, s, s.workers[w]); }
      hide WorkersFit, TokensDistinct, TokensBounded, ReceiptFits, Evolves;
    }
  }

  lemma OthersStay(q: Request, s: World, step: Step, w: nat)
    requires !Acts(step, w)
    ensures var t := Next(q, s, step);
      (w in t.workers <==> w in s.workers) && (w in s.workers ==> t.workers[w] == s.workers[w])
    ensures var t := Next(q, s, step); t.applied != s.applied ==>
              step.CompareAndSet? && WorkerOf(s, step.w).Deciding?
              && t.applied == s.applied + [WorkerOf(s, step.w).token]
  {
  }

  /** The token of another worker stays, unless it has yet to be read back. */
  lemma OtherToken(q: Request, s: World, step: Step, w: nat)
    requires TokensFit(s) && !Acts(step, w) && w in s.workers
    ensures var t, worker := Next(q, s, step), s.workers[w];
      TokenOf(t, worker) == TokenOf(s, worker) || (worker.Taking? && TokenOf(t, worker) > 2)
  {
    assert Bounded(s, s.workers[w]);
  }

  lemma StepKeepsWorkers(q: Request, s: World, step: Step)
    requires Inv(q, s)
    ensures WorkersFit(q, Next(q, s, step))
  {
    StepEvolves(q, s, step);
    var t := Next(q, s, step);
    forall w | w in t.workers ensures WorkerFits(q, t, t.workers[w]) {
      if Acts(step, w) {
        ActorFits(q, s, step, w);
      } else {
        OthersStay(q, s, step, w);
        OtherToken(q, s, step, w);
        WorkerUndisturbed(q, s, t, t.workers[w]);
      }
    }
  }

  /** Only a claim hands out a token, and it hands out a new one. */
  lemma ActorToken(q: Request, s: World, step: Step, w: nat)
    requires TokensFit(s) && Acts(step, w)
    ensures var t := Next(q, s, step);
      w in t.workers && !t.workers[w].Idle? ==>
        && Bounded(t, t.workers[w])
        && if w in s.workers && !s.workers[w].Idle? then TokenOf(t, t.workers[w]) == TokenOf(s, s.workers[w])
           else s.receipt.Some? ==> TokenOf(t, t.workers[w]) > s.receipt.value.token
  {
    if w in s.workers { assert Bounded(s, s.workers[w]); }
    hide TokensDistinct, AppliedBounded;
  }

  lemma ReceiptAfter(q: Request, s: World, step: Step)
    requires TokensFit(s)
    ensures var t := Next(q, s, step);
      && (s.receipt.Some? ==> t.receipt.Some? && t.receipt.value.token >= s.receipt.value.token)
      && (t.receipt.Some? && t.receipt.value.status != Processing && t.receipt != s.receipt ==>
            step.Complete? && WorkerOf(s, step.w).Answering? && s.receipt.Some?
            && s.receipt.value.token == t.receipt.value.token == WorkerOf(s, step.w).token)
  {
  }

  /** A worker other than the one that acts stays within its bounds. */
  lemma OtherBounded(q: Request, s: World, step: Step, w: nat)
    requires TokensFit(s) && !Acts(step, w) && w in s.workers
    ensures Bounded(Next(q, s, step), s.workers[w])
  {
    assert Bounded(s, s.workers[w]);
    ReceiptAfter(q, s, step);
    OtherToken(q, s, step, w);
    if step.Complete? && step.w in s.workers && WorkerOf(s, step.w).Answering? {
      assert Bounded(s, s.workers[step.w]);
      assert TokenOf(s, s.workers[step.w]) == WorkerOf(s, step.w).token;
      if !s.workers[w].Idle? { assert step.w != w; }
    }
    hide AppliedBounded;
  }

  lemma StepKeepsBounds(q: Request, s: World, step: Step)
    requires TokensFit(s)
    ensures TokensBounded(Next(q, s, step)) && AppliedBounded(Next(q, s, step))
  {
    var t := Next(q, s, step);
    ReceiptAfter(q, s, step);
    forall w | w in t.workers ensures Bounded(t, t.workers[w]) {
      if Acts(step, w) {
        ActorToken(q, s, step, w);
      } else {
        OthersStay(q, s, step, w);
        OtherBounded(q, s, step, w);
      }
    }
    forall x | x in t.applied ensures t.receipt.Some? && 1 <= x <= t.receipt.value.token {
      if t.applied != s.applied {
        OthersStay(q, s, step, if step.CompareAndSet? then step.w + 1 else 0);
        assert Bounded(s, s.workers[step.w]);
      }
    }
  }

  lemma TokensApart(q: Request, s: World, step: Step, v: nat, w: nat)
    requires TokensFit(s) && Acts(step, v) && v != w
    requires var t := Next(q, s, step);
      v in t.workers && w in t.workers && Share(t, t.workers[v], t.workers[w])
    ensures var t := Next(q, s, step); TokenOf(t, t.workers[v]) > 2
  {
    ActorToken(q, s, step, v);
    OthersStay(q, s, step, w);
    OtherToken(q, s, step, w);
    assert Bounded(s, s.workers[w]);
    hide Next, Bounded;
  }

  lemma StepKeepsDistinct(q: Request, s: World, step: Step)
    requires TokensFit(s)
    ensures TokensDistinct(Next(q, s, step))
  {
    var t := Next(q, s, step);
    forall v, w | v in t.workers && w in t.workers && v != w && Share(t, t.workers[v], t.workers[w])
      ensures TokenOf(t, t.workers[v]) > 2
    {
      if Acts(step, v) {
        TokensApart(q, s, step, v, w);
      } else if Acts(step, w) {
        TokensApart(q, s, step, w, v);
      } else {
        OthersStay(q, s, step, v);
        OthersStay(q, s, step, w);
        OtherToken(q, s, step, v);
        OtherToken(q, s, step, w);
      }
    }
  }

  lemma StepKeepsReceipt(q: Request, s: World, step: Step)
    requires Inv(q, s)
    ensures ReceiptFits(q, Next(q, s, step))
  {
    StepEvolves(q, s, step);
    if step.Complete? && step.w in s.workers { assert WorkerFits(q, s, s.workers[step.w]); }
  }

  lemma StepKeepsInv(q: Request, s: World, step: Step)
    requires Inv(q, s)
    ensures Inv(q, Next(q, s, step)) && Evolves(s, Next(q, s, step))
  {
    StepEvolves(q, s, step);
    StepKeepsWorkers(q, s, step);
    StepKeepsBounds(q, s, step);
    StepKeepsDistinct(q, s, step);
    ReceiptAfter(q, s, step);
    StepKeepsReceipt(q, s, step);
  }

  lemma {:induction false} RunKeepsInv(q: Request, s: World, steps: seq<Step>)
    requires Inv(q, s)
    ensures Inv(q, Run(q, s, steps)) && Evolves(s, Run(q, s, steps))
    decreases steps
  {
    if steps != [] {
      StepKeepsInv(q, s, steps[0]);
      RunKeepsInv(q, Next(q, s, steps[0]), steps[1..]);
    }
  }

  /** In every interleaving the workers of one key change the user at most
      once; a change, and equally a succeeded receipt, means that the user at
      version expected+1 had the requested locale; the profile of a succeeded
      receipt is a state the user really had; and a receipt that failed under one
      of the first two tokens means that the worker that completed it changed
      nothing. A receipt that succeeded without a take-over means that its worker
      made the change. */
  lemma EveryRunIsSafe(q: Request, user: User, steps: seq<Step>)
    ensures
      var s := Run(q, Start(user), steps);
      && |s.applied| <= 1
      && (s.applied != [] ==> Took(q, s))
      && (s.receipt.Some? && s.receipt.value.status == Succeeded ==>
            Took(q, s) && s.receipt.value.result.Some? && s.receipt.value.result.value.Profile?
            && RealProfile(q, s, s.receipt.value.result.value.me))
      && (s.receipt.Some? && s.receipt.value.status == Succeeded && s.receipt.value.token == 1 ==> 1 in s.applied)
      && (s.receipt.Some? && s.receipt.value.status == FailedTerminal && s.receipt.value.token <= 2 ==>
            s.receipt.value.token !in s.applied)
  {
    RunKeepsInv(q, Start(user), steps);
  }

  // ---- how long a grant lasts

  /** What a claim that is granted leaves behind: the receipt under a lease of
      thirty seconds and a token of its own. */
  lemma GrantLeases(q: Request, s: World, w: nat, owner: string, t: int)
    ensures var next := Next(q, s, Claim(w, owner, t));
      next != s ==>
        && next.receipt == Some(Receipt(Processing, owner, t + 30,
                                        if s.receipt == None then 1 else s.receipt.value.token + 1, None))
        && (s.receipt != None ==> s.receipt.value.status == Processing && t >= s.receipt.value.expires)
        && next.user == s.user && next.applied == s.applied
  {
  }

  lemma StepKeepsLease(q: Request, s: World, step: Step)
    requires s.receipt.Some? && s.receipt.value.status == Processing
    requires step.Claim? ==> step.now < s.receipt.value.expires
    ensures var t := Next(q, s, step);
      t.receipt == s.receipt || (t.receipt.Some? && t.receipt.value.status != Processing)
  {
  }

  /** Until the lease of a receipt is over no step but its completion changes it. */
  lemma {:induction false} LeaseHolds(q: Request, s: World, steps: seq<Step>)
    requires Inv(q, s) && s.receipt.Some? && s.receipt.value.status == Processing
    requires forall i :: 0 <= i < |steps| && steps[i].Claim? ==> steps[i].now < s.receipt.value.expires
    requires Run(q, s, steps).receipt.Some? && Run(q, s, steps).receipt.value.status == Processing
    ensures Run(q, s, steps).receipt == s.receipt
    decreases steps
  {
    hide Inv, Next;
    if steps != [] {
      var next, rest := Next(q, s, steps[0]), steps[1..];
      StepKeepsInv(q, s, steps[0]);
      StepKeepsLease(q, s, steps[0]);
      RunKeepsInv(q, next, rest);
      assert Run(q, s, steps) == Run(q, next, rest);
      forall i | 0 <= i < |rest| && rest[i].Claim? ensures rest[i].now < s.receipt.value.expires {
        assert rest[i] == steps[i + 1];
      }
      LeaseHolds(q, next, rest);
    }
  }

  lemma StartFits(q: Request, user: User)
    ensures Inv(q, Start(user))
  {
  }

  /** What a free worker's claim meets while a lease granted at clock `t` is held. */
  lemma LeaseMeets(q: Request, held: World, t: int, steps: seq<Step>, v: nat, other: string, u: int)
    requires Inv(q, held) && held.receipt.Some? && held.receipt.value.status == Processing
    requires held.receipt.value.expires == t + 30
    requires forall i :: 0 <= i < |steps| && steps[i].Claim? ==> steps[i].now < t + 30
    requires var later := Run(q, held, steps);
      later.receipt.Some? && later.receipt.value.status == Processing && WorkerOf(later, v) == Idle
    ensures var later := Run(q, held, steps);
      var end := Next(q, later, Claim(v, other, u));
      if u < t + 30 then end == later
      else end.receipt == Some(Receipt(Processing, other, u + 30, held.receipt.value.token + 1, None))
  {
    hide *;
    LeaseHolds(q, held, steps);
    ClaimDecides(q, Run(q, held, steps), v, other, u);
  }

  /** In every run, after a grant at clock `t`, while no claim comes when its lease
      is over and the receipt is not completed, a free worker's claim changes
      nothing before `t + 30`, and takes over with the next token from then on. */
  lemma GrantHoldsInRuns(q: Request, user: User, before: seq<Step>, w: nat, owner: string, t: int, steps: seq<Step>,
                         v: nat, other: string, u: int)
    requires Next(q, Run(q, Start(user), before), Claim(w, owner, t)) != Run(q, Start(user), before)
    requires forall i :: 0 <= i < |steps| && steps[i].Claim? ==> steps[i].now < t + 30
    requires var later := Run(q, Next(q, Run(q, Start(user), before), Claim(w, owner, t)), steps);
      later.receipt.Some? && later.receipt.value.status == Processing && WorkerOf(later, v) == Idle
    ensures var held := Next(q, Run(q, Start(user), before), Claim(w, owner, t));
      var later := Run(q, held, steps);
      var end := Next(q, later, Claim(v, other, u));
      && held.receipt.Some?
      && if u < t + 30 then end == later
         else end.receipt == Some(Receipt(Processing, other, u + 30, held.receipt.value.token + 1, None))
  {
    hide *;
    StartFits(q, user);
    var s := Run(q, Start(user), before);
    RunKeepsInv(q, Start(user), before);
    StepKeepsInv(q, s, Claim(w, owner, t));
    GrantLeases(q, s, w, owner, t);
    LeaseMeets(q, Next(q, s, Claim(w, owner, t)), t, steps, v, other, u);
  }

  lemma ClaimDecides(q: Request, s: World, w: nat, owner: string, t: int)
    requires s.receipt.Some? && s.receipt.value.status == Processing && WorkerOf(s, w) == Idle
    ensures var next := Next(q, s, Claim(w, owner, t));
      if t < s.receipt.value.expires then next == s
      else next.receipt == Some(Receipt(Processing, owner, t + 30, s.receipt.value.token + 1, None))
  {
  }

  /** A receipt that failed without ever being taken over failed for good: the
      key changed nothing. */
  lemma FailedFirstGrantChangedNothing(q: Request, user: User, steps: seq<Step>)
    requires FailedAt(Run(q, Start(user), steps), 1)
    ensures Run(q, Start(user), steps).applied == []
  {
    var s := Run(q, Start(user), steps);
    RunKeepsInv(q, Start(user), steps);
    if s.applied != [] {
      var first := HeadOf(s.applied);
      assert false;
    }
  }

  lemma HeadOf(s: seq<int>) returns (first: int)
    requires s != []
    ensures first in s
  {
    first := s[0];
  }

  lemma RunStep(q: Request, s: World, steps: seq<Step>)
    requires steps != []
    ensures Run(q, s, steps) == Run(q, Next(q, s, steps[0]), steps[1..])
  {
  }

  lemma {:induction false} RunOn(q: Request, s: World, a: seq<Step>, b: seq<Step>)
    ensures Run(q, s, a + b) == Run(q, Run(q, s, a), b)
    decreases a
  {
    if a == [] {
      assert a + b == b;
    } else {
      assert (a + b)[0] == a[0] && (a + b)[1..] == a[1..] + b;
      RunOn(q, Next(q, s, a[0]), a[1..], b);
    }
  }

  /** The receipt failed, completed by the worker that holds token `t`. */
  predicate FailedAt(s: World, t: int) {
    s.receipt.Some? && s.receipt.value.status == FailedTerminal && s.receipt.value.token == t
  }

  /** One worker is about to change the user, and another is free. */
  ghost predicate Stalled(q: Request, s: World, t: int) {
    && s.user.Some? && s.user.value.version == q.expected && s.applied == []
    && s.receipt.Some? && s.receipt.value.status == Processing && s.receipt.value.token == t >= 1
    && WorkerOf(s, 0) == Deciding(1) && WorkerOf(s, 1) == Idle && WorkerOf(s, 2) == Idle
  }

  lemma StallFirst(q: Request, user: User) returns (steps: seq<Step>)
    requires user.version <= q.expected
    ensures Stalled(q, Run(q, Start(user), steps), 1)
  {
    var raise := if user.version < q.expected then [Edit(User("", q.expected))] else [];
    var s := if user.version < q.expected then Next(q, Start(user), raise[0]) else Start(user);
    var first, second := Claim(0, "", 0), Read(0);
    assert Run(q, Start(user), raise) == s;
    RunOn(q, Start(user), raise, [first, second]);
    RunStep(q, s, [first, second]);
    RunStep(q, Next(q, s, first), [second]);
    assert [first, second][1..] == [second] && [second][1..] == [];
    steps := raise + [first, second];
  }

  /** The free worker takes the receipt over and crashes. */
  lemma StallLonger(q: Request, s: World, t: int)
    requires Stalled(q, s, t)
    ensures var claim := Claim(1, "", s.receipt.value.expires);
      Stalled(q, Run(q, s, [claim, Crash(1)]), t + 1)
  {
    var claim := Claim(1, "", s.receipt.value.expires);
    RunStep(q, s, [claim, Crash(1)]);
    RunStep(q, Next(q, s, claim), [Crash(1)]);
    assert [claim, Crash(1)][1..] == [Crash(1)] && [Crash(1)][1..] == [];
  }

  lemma {:induction false} StallUntil(q: Request, user: User, t: int) returns (steps: seq<Step>)
    requires user.version <= q.expected && t >= 1
    ensures Stalled(q, Run(q, Start(user), steps), t)
    decreases t
  {
    if t == 1 {
      steps := StallFirst(q, user);
    } else {
      var before := StallUntil(q, user, t - 1);
      var s := Run(q, Start(user), before);
      StallLonger(q, s, t - 1);
      RunOn(q, Start(user), before, [Claim(1, "", s.receipt.value.expires), Crash(1)]);
      steps := before + [Claim(1, "", s.receipt.value.expires), Crash(1)];
    }
  }

  /** The free worker takes over and reads; then the stalled one changes the
      user, and the other loses the compare-and-set and records a failure. */
  function LateSteps(now: int): seq<Step> {
    [Claim(1, "", now), ReadBack(1), Read(1), CompareAndSet(0, NoFault), CompareAndSet(1, NoFault), Complete(1)]
  }

  lemma LateChange(q: Request, s: World, t: int)
    requires Stalled(q, s, t)
    ensures var end := Run(q, s, LateSteps(s.receipt.value.expires));
      FailedAt(end, t + 1) && end.applied == [1] && end.user == Some(User(q.locale, q.expected + 1))
  {
    var steps := LateSteps(s.receipt.value.expires);
    var s1 := Next(q, Next(q, s, steps[0]), steps[1]);
    assert s1.receipt == Some(Receipt(Processing, "", s.receipt.value.expires + LEASE_TTL, t + 1, None));
    assert WorkerOf(s1, 0) == Deciding(1) && WorkerOf(s1, 1) == Claimed(t + 1) && OwnerOf(s1, t + 1) == "";
    RunOn(q, s, steps[..2], steps[2..]);
    assert steps == steps[..2] + steps[2..];
    TwoSteps(q, s, steps[0], steps[1]);
    LoserFails(q, s1, t + 1, 0, 1);
    assert steps[2..] == LoserSteps(0, 1);
  }

  lemma TwoSteps(q: Request, s: World, a: Step, b: Step)
    ensures Run(q, s, [a, b]) == Next(q, Next(q, s, a), b)
  {
    RunStep(q, s, [a, b]);
    RunStep(q, Next(q, s, a), [b]);
    assert [a, b][1..] == [b] && [b][1..] == [];
  }

  /** One worker reads, the other changes the user, and the first loses the
      compare-and-set and records a failure. */
  function LoserSteps(winner: nat, loser: nat): seq<Step> {
    [Read(loser), CompareAndSet(winner, NoFault), CompareAndSet(loser, NoFault), Complete(loser)]
  }

  lemma LoserFails(q: Request, s: World, t: int, winner: nat, loser: nat)
    requires s.user.Some? && s.user.value.version == q.expected && s.applied == []
    requires s.receipt.Some? && s.receipt.value.status == Processing && s.receipt.value.token == t
    requires s.receipt.value.owner == OwnerOf(s, t)
    requires WorkerOf(s, winner).Deciding? && WorkerOf(s, loser) == Claimed(t)
    ensures var end := Run(q, s, LoserSteps(winner, loser));
      && FailedAt(end, t) && end.applied == [WorkerOf(s, winner).token]
      && end.user == Some(User(q.locale, q.expected + 1))
  {
    var steps, token := LoserSteps(winner, loser), WorkerOf(s, winner).token;
    var s2 := Next(q, s, steps[0]);
    var s3 := Next(q, s2, steps[1]);
    var s4 := Next(q, s3, steps[2]);
    FourSteps(q, s, steps);
    assert WorkerOf(s2, winner) == Deciding(token) && WorkerOf(s2, loser) == Deciding(t) && s2.receipt == s.receipt;
    assert s3.applied == [token] && s3.user == Some(User(q.locale, q.expected + 1));
    assert WorkerOf(s3, loser) == Deciding(t) && OwnerOf(s3, t) == OwnerOf(s, t);
    assert s4.workers[loser]
        == Answering(t, OwnerOf(s, t), Failure(Conflict, "backend.identity.user_version_conflict"));
  }

  lemma {:induction false} FourSteps(q: Request, s: World, steps: seq<Step>)
    requires |steps| == 4
    ensures Run(q, s, steps) == Next(q, Next(q, Next(q, Next(q, s, steps[0]), steps[1]), steps[2]), steps[3])
  {
    hide Next;
    RunOn(q, s, steps[..2], steps[2..]);
    assert steps == steps[..2] + steps[2..] && steps[..2] == [steps[0], steps[1]] && steps[2..] == [steps[2], steps[3]];
    TwoSteps(q, s, steps[0], steps[1]);
    TwoSteps(q, Next(q, Next(q, s, steps[0]), steps[1]), steps[2], steps[3]);
  }

  // ---- a token that two workers read back

  /** Two workers take the receipt over in turn, and only then read it back: both
      hold the later token. */
  function SharingSteps(now: int): seq<Step> {
    [Claim(1, "", now), Claim(2, "", now + LEASE_TTL), ReadBack(1), ReadBack(2)]
  }

  lemma SharedToken(q: Request, s: World, t: int)
    requires Stalled(q, s, t)
    ensures var end := Run(q, s, SharingSteps(s.receipt.value.expires));
      && end.user == s.user && end.applied == [] && end.receipt.Some? && end.receipt.value.status == Processing
      && end.receipt.value.token == t + 2 && end.receipt.value.owner == OwnerOf(end, t + 2)
      && WorkerOf(end, 1) == WorkerOf(end, 2) == Claimed(t + 2)
  {
    var steps := SharingSteps(s.receipt.value.expires);
    var s1 := Next(q, s, steps[0]);
    var s2 := Next(q, s1, steps[1]);
    FourSteps(q, s, steps);
    assert s1.receipt == Some(Receipt(Processing, "", s.receipt.value.expires + LEASE_TTL, t + 1, None));
    assert WorkerOf(s1, 1) == Taking && WorkerOf(s1, 2) == Idle;
    assert s2.receipt.value.token == t + 2 && WorkerOf(s2, 1) == WorkerOf(s2, 2) == Taking && OwnerOf(s2, t + 2) == "";
  }

  /** From the third token on, a receipt can fail under a token by which the user
      was changed. */
  lemma FailureOfItsOwnToken(q: Request, user: User, t: int) returns (steps: seq<Step>)
    requires user.version <= q.expected && t >= 3
    ensures var s := Run(q, Start(user), steps); FailedAt(s, t) && s.applied == [t]
  {
    var before := StallUntil(q, user, t - 2);
    var s := Run(q, Start(user), before);
    var sharing := SharingSteps(s.receipt.value.expires);
    SharedToken(q, s, t - 2);
    var shared := Run(q, s, sharing);
    var reading := Next(q, shared, Read(1));
    assert WorkerOf(reading, 1) == Deciding(t) && WorkerOf(reading, 2) == Claimed(t);
    assert reading == shared.(workers := reading.workers);
    hide Next, Stalled;
    LoserFails(q, reading, t, 1, 2);
    var ending := [Read(1)] + LoserSteps(1, 2);
    RunStep(q, shared, ending);
    assert ending[1..] == LoserSteps(1, 2);
    RunOn(q, s, sharing, ending);
    RunOn(q, Start(user), before, sharing + ending);
    steps := before + (sharing + ending);
  }

  /** Exactly when a failed receipt tells that the key changed nothing under the
      token it failed by: for the first two tokens, or when the user was past the
      expected version to begin with. */
  lemma OwnFailureTellsIff(q: Request, user: User, t: int)
    requires t >= 1
    ensures (forall steps :: FailedAt(Run(q, Start(user), steps), t) ==> t !in Run(q, Start(user), steps).applied)
      <==> t <= 2 || user.version > q.expected
  {
    if t <= 2 {
      forall steps | FailedAt(Run(q, Start(user), steps), t) ensures t !in Run(q, Start(user), steps).applied {
        EveryRunIsSafe(q, user, steps);
      }
    } else if user.version > q.expected {
      forall steps ensures Run(q, Start(user), steps).applied == [] { PastStays(q, Start(user), steps); }
    } else {
      var steps := FailureOfItsOwnToken(q, user, t);
      assert FailedAt(Run(q, Start(user), steps), t) && t in Run(q, Start(user), steps).applied;
    }
  }

  /** A failure under any later token can stand for a change that was made. */
  lemma LateFailure(q: Request, user: User, t: int) returns (steps: seq<Step>)
    requires user.version <= q.expected && t >= 2
    ensures var s := Run(q, Start(user), steps);
      FailedAt(s, t) && s.applied == [1] && s.user == Some(User(q.locale, q.expected + 1))
  {
    var before := StallUntil(q, user, t - 1);
    var s := Run(q, Start(user), before);
    LateChange(q, s, t - 1);
    RunOn(q, Start(user), before, LateSteps(s.receipt.value.expires));
    steps := before + LateSteps(s.receipt.value.expires);
  }

  /** A user past the expected version is never changed by the key. */
  ghost predicate Past(q: Request, s: World) {
    s.applied == [] && (s.user.Some? ==> s.user.value.version > q.expected)
  }

  lemma {:induction false} PastStays(q: Request, s: World, steps: seq<Step>)
    requires Past(q, s)
    ensures Past(q, Run(q, s, steps))
    decreases steps
  {
    if steps != [] {
      assert Past(q, Next(q, s, steps[0]));
      PastStays(q, Next(q, s, steps[0]), steps[1..]);
    }
  }

  /** Exactly when a failed receipt tells that the key changed nothing, over all
      runs that end in a failure under token `t`: when the receipt was never
      taken over, or the user was past the expected version to begin with. */
  lemma FailedTellsIff(q: Request, user: User, t: int)
    requires t >= 1
    ensures (forall steps :: FailedAt(Run(q, Start(user), steps), t) ==> Run(q, Start(user), steps).applied == [])
      <==> t == 1 || user.version > q.expected
  {
    if t == 1 {
      forall steps | FailedAt(Run(q, Start(user), steps), t) ensures Run(q, Start(user), steps).applied == [] {
        FailedFirstGrantChangedNothing(q, user, steps);
      }
    } else if user.version > q.expected {
      forall steps ensures Run(q, Start(user), steps).applied == [] { PastStays(q, Start(user), steps); }
    } else {
      var steps := LateFailure(q, user, t);
      assert FailedAt(Run(q, Start(user), steps), t) && Run(q, Start(user), steps).applied != [];
    }
  }

  /** The smallest case: the second worker of a locale change reports a failure
      for a change that the first has made. */
  lemma FailedAfterTakeOverMayHaveChanged() returns (steps: seq<Step>)
    ensures var s := Run(Request("de", 1), Start(User("en", 1)), steps);
      FailedAt(s, 2) && s.applied == [1] && s.user == Some(User("de", 2))
  {
    steps := LateFailure(Request("de", 1), User("en", 1), 2);
  }

  // ---------------------------------------------------------------------
  // The service call
  // ---------------------------------------------------------------------

  datatype Call = Call(known: bool, scoped: bool, locale: string, supported: set<string>, expected: int, key: string)
  datatype Answer = Done(me: User, replayed: bool) | Error(kind: Kind, code: string)

  /** What is checked before any state is touched, in the order it is checked. */
  function Rejection(call: Call): Option<Answer> {
    if !call.known then Some(Error(Forbidden, "auth.token_required"))
    else if !call.scoped then Some(Error(Forbidden, "backend.workspace_scope_required"))
    else if call.locale == "" then Some(Error(BadRequest, "backend.identity.user_locale_required"))
    else if call.locale !in call.supported then Some(Error(BadRequest, "backend.i18n.locale_unsupported"))
    else if call.expected < 1 then Some(Error(BadRequest, "backend.identity.user_version_required"))
    else if call.key == "" then Some(Error(BadRequest, "backend.idempotency_key_required"))
    else None
  }

  function Replayed(stored: Stored): Answer {
    match stored
    case Profile(me) => Done(me, true)
    case Failure(kind, code) => Error(kind, code)
  }

  function Alone(user: Option<User>, receipt: Option<Receipt>): World {
    World(user, map[], receipt, map[], map[], [])
  }

  function OneCall(owner: string, now: int, fault: Fault): seq<Step> {
    [Claim(0, owner, now), ReadBack(0), Read(0), CompareAndSet(0, fault), ReadAgain(0), Complete(0)]
  }

  const INTERNAL := Error(Internal, "backend.internal")
  const USER_MISSING := Error(NotFound, "backend.identity.user_not_found")
  const VERSION_CONFLICT := Error(Conflict, "backend.identity.user_version_conflict")

  /** The rows a call works on, and its answer. */
  datatype Called = Called(user: Option<User>, receipt: Option<Receipt>, answer: Answer)

  function Closed(r: Receipt, stored: Stored): Option<Receipt> {
    Some(r.(status := if stored.Profile? then Succeeded else FailedTerminal, result := Some(stored)))
  }

  /** What the holder of the lease `r` does: finish a change already made, or
      make it. An answer says `replayed` exactly when the change was there. */
  function Proceed(q: Request, user: Option<User>, r: Receipt, fault: Fault): Called {
    match user
    case None => Called(None, Some(r), USER_MISSING)
    case Some(before) =>
      if AlreadyChanged(q, r.token, before) then Called(user, Closed(r, Profile(before)), Done(before, true))
      else
        var matched := before.version == q.expected;
        var after := if matched && fault != BeforeWrite then User(q.locale, q.expected + 1) else before;
        if fault != NoFault then Called(Some(after), Some(r), INTERNAL)
        else if matched then Called(Some(after), Closed(r, Profile(after)), Done(after, false))
        else Called(user, Closed(r, Failure(VERSION_CONFLICT.kind, VERSION_CONFLICT.code)), VERSION_CONFLICT)
  }

  /** A call whose request fits the receipt of its key, if there is one. */
  function CallIn(q: Request, user: Option<User>, receipt: Option<Receipt>, owner: string, now: int,
                  fault: Fault): Called
  {
    if receipt == None then Proceed(q, user, Receipt(Processing, owner, now + LEASE_TTL, 1, None), fault)
    else
      var r := receipt.value;
      if r.status != Processing
      then Called(user, receipt, if r.result == None then INTERNAL else Replayed(r.result.value))
      else if now < r.expires then Called(user, receipt, Error(Conflict, "backend.idempotency_in_progress"))
      else Proceed(q, user, Receipt(Processing, owner, now + LEASE_TTL, r.token + 1, None), fault)
  }

  /** What the answer of a call tells about the rows it leaves, and they about it:
      a success shows the profile that is stored; a receipt that this call failed
      is answered with the error stored; a success that is no replay means that
      this call changed the user and completed; what was stored before is replayed,
      and a lease that still runs turns the call away. */
  ghost predicate Tells(q: Request, user: Option<User>, receipt: Option<Receipt>, now: int, end: Called) {
    && (end.answer.Done? ==>
          end.receipt.Some? && end.receipt.value.status != Processing
          && end.receipt.value.result == Some(Profile(end.answer.me)))
    && (end.receipt != receipt && end.receipt.Some? && end.receipt.value.status == FailedTerminal ==>
          end.receipt.value.result.Some? && end.receipt.value.result.value.Failure?
          && end.answer == Error(end.receipt.value.result.value.kind, end.receipt.value.result.value.code))
    && (end.receipt != receipt && end.receipt.Some? && end.receipt.value.status == Succeeded ==> end.answer.Done?)
    && (end.answer.Done? && !end.answer.replayed <==>
          end.user != user && end.receipt.Some? && end.receipt.value.status != Processing)
    && (receipt.Some? && receipt.value.status != Processing ==>
          end.user == user && end.receipt == receipt &&
          match receipt.value.result
          case None => end.answer == Error(Internal, "backend.internal")
          case Some(Profile(me)) => end.answer == Done(me, true)
          case Some(Failure(kind, code)) => end.answer == Error(kind, code))
    && (receipt.Some? && receipt.value.status == Processing && now < receipt.value.expires ==>
          end == Called(user, receipt, Error(Conflict, "backend.idempotency_in_progress")))
    && (receipt.Some? && receipt.value.status == Processing && now >= receipt.value.expires && receipt.value.token >= 1
        && user == Some(User(q.locale, q.expected + 1)) ==>
          end.user == user && end.answer == Done(user.value, true))
  }

  lemma CallTells(q: Request, user: Option<User>, receipt: Option<Receipt>, owner: string, now: int, fault: Fault)
    ensures Tells(q, user, receipt, now, CallIn(q, user, receipt, owner, now, fault))
  {
  }

  /** Undisturbed and without a fault, a call that is granted the receipt fails
      exactly when the user is gone or not at the expected version. */
  lemma CallSucceedsIff(q: Request, user: Option<User>, owner: string, now: int)
    ensures var end := CallIn(q, user, None, owner, now, NoFault);
      && (end.answer.Done? <==> user.Some? && user.value.version == q.expected)
      && (end.answer.Done? ==> end.user == Some(User(q.locale, q.expected + 1)) && !end.answer.replayed)
      && (user == None ==> end.answer == Error(NotFound, "backend.identity.user_not_found"))
      && (user.Some? && user.value.version != q.expected ==>
            end.user == user && end.answer == Error(Conflict, "backend.identity.user_version_conflict"))
  {
  }

  /** The six things that are asked of a call, and the error of the first that is
      not so. */
  lemma RejectionsInOrder(call: Call)
    ensures Rejection(call) == None <==>
      call.known && call.scoped && call.locale != "" && call.locale in call.supported && call.expected >= 1
      && call.key != ""
    ensures !call.known ==> Rejection(call) == Some(Error(Forbidden, "auth.token_required"))
    ensures call.known && !call.scoped ==> Rejection(call) == Some(Error(Forbidden, "backend.workspace_scope_required"))
    ensures call.known && call.scoped && call.locale == "" ==>
      Rejection(call) == Some(Error(BadRequest, "backend.identity.user_locale_required"))
    ensures call.known && call.scoped && call.locale != "" && call.locale !in call.supported ==>
      Rejection(call) == Some(Error(BadRequest, "backend.i18n.locale_unsupported"))
    ensures call.known && call.scoped && call.locale != "" && call.locale in call.supported ==>
      && (call.expected < 1 ==> Rejection(call) == Some(Error(BadRequest, "backend.identity.user_version_required")))
      && (call.expected >= 1 && call.key == "" ==>
            Rejection(call) == Some(Error(BadRequest, "backend.idempotency_key_required")))
  {
  }

  lemma OneCallRuns(q: Request, s: World, owner: string, now: int, fault: Fault)
    ensures var held := Next(q, Next(q, s, Claim(0, owner, now)), ReadBack(0));
      Run(q, s, OneCall(owner, now, fault))
      == Next(q, Next(q, Next(q, Next(q, held, Read(0)), CompareAndSet(0, fault)), ReadAgain(0)), Complete(0))
  {
    hide Next;
    var steps := OneCall(owner, now, fault);
    RunOn(q, s, steps[..2], steps[2..]);
    assert steps == steps[..2] + steps[2..] && steps[..2] == [steps[0], steps[1]];
    TwoSteps(q, s, steps[0], steps[1]);
    FourSteps(q, Next(q, Next(q, s, steps[0]), steps[1]), steps[2..]);
  }

  /** The steps of a worker that has just been granted the receipt. */
  lemma ProceedRuns(q: Request, s: World, r: Receipt, fault: Fault)
    requires s.receipt == Some(r) && r.status == Processing && r.result == None
    requires WorkerOf(s, 0) == Claimed(r.token) && OwnerOf(s, r.token) == r.owner
    ensures var end :=
      Next(q, Next(q, Next(q, Next(q, s, Read(0)), CompareAndSet(0, fault)), ReadAgain(0)), Complete(0));
      var called := Proceed(q, s.user, r, fault);
      end.user == called.user && end.receipt == called.receipt
  {
    if s.user != None {
      var s1 := Next(q, s, Read(0));
      if AlreadyChanged(q, r.token, s.user.value) {
        assert WorkerOf(s1, 0) == Answering(r.token, r.owner, Profile(s.user.value));
      } else {
        assert WorkerOf(s1, 0) == Deciding(r.token) && OwnerOf(s1, r.token) == r.owner;
      }
    }
  }

  /** One undisturbed call leaves the rows as the worker's own steps do. */
  lemma CallIsARun(q: Request, user: Option<User>, receipt: Option<Receipt>, owner: string, now: int, fault: Fault)
    ensures var end := Run(q, Alone(user, receipt), OneCall(owner, now, fault));
      var called := CallIn(q, user, receipt, owner, now, fault);
      end.user == called.user && end.receipt == called.receipt
  {
    var s := Alone(user, receipt);
    var claim := Claim(0, owner, now);
    OneCallRuns(q, s, owner, now, fault);
    if receipt == None {
      ProceedRuns(q, Next(q, Next(q, s, claim), ReadBack(0)), Receipt(Processing, owner, now + LEASE_TTL, 1, None),
                  fault);
    } else if receipt.value.status == Processing && now >= receipt.value.expires {
      ProceedRuns(q, Next(q, Next(q, s, claim), ReadBack(0)),
                  Receipt(Processing, owner, now + LEASE_TTL, receipt.value.token + 1, None), fault);
    }
  }

  /** The stored rows one key works on: the user, and the key's receipt with
      the request it was claimed for. */
  class AuthService {
    var user: Option<User>
    var receipt: Option<Receipt>
    var request: Request

    constructor (user: User)
      ensures this.user == Some(user) && receipt == None
    {
      this.user := Some(user);
      receipt := None;
      request := Request("", 0);
    }

    method UpdateUserLocale(locale: string, expected: int, fault: Fault) returns (error: Option<Answer>)
      modifies this`user
      ensures old(user) != None && old(user).value.version == expected && fault != BeforeWrite ==>
                user == Some(User(locale, expected + 1))
      ensures !(old(user) != None && old(user).value.version == expected && fault != BeforeWrite) ==> user == old(user)
      ensures error == if fault != NoFault then Some(Error(Internal, "backend.internal"))
                       else if old(user) == None then Some(Error(NotFound, "backend.identity.user_not_found"))
                       else if old(user).value.version != expected
                       then Some(Error(Conflict, "backend.identity.user_version_conflict"))
                       else None
    {
      var matched := user != None && user.value.version == expected;
      if matched && fault != BeforeWrite { user := Some(User(locale, expected + 1)); }
      if fault != NoFault { return Some(Error(Internal, "backend.internal")); }
      if matched { return None; }
      return Some(if user == None then Error(NotFound, "backend.identity.user_not_found")
                  else Error(Conflict, "backend.identity.user_version_conflict"));
    }

    /** Completes the receipt the caller has just claimed. */
    method CompleteLocaleMutation(owner: string, token: int, stored: Stored) returns (error: Option<Answer>)
      requires receipt != None
      modifies this`receipt
      ensures var r := old(receipt).value;
        if r.status == Processing && r.owner == owner && r.token == token
        then error == None
             && receipt == Some(r.(status := if stored.Profile? then Succeeded else FailedTerminal,
                                   result := Some(stored)))
        else error == Some(INTERNAL) && receipt == old(receipt)
    {
      var r := receipt.value;
      if r.status != Processing || r.owner != owner || r.token != token {
        return Some(Error(Internal, "backend.internal"));
      }
      receipt := Some(r.(status := if stored.Profile? then Succeeded else FailedTerminal, result := Some(stored)));
      return None;
    }

    /** What a worker does once it holds the lease. */
    method Continue(q: Request, owner: string, token: int, fault: Fault) returns (answer: Answer)
      requires receipt != None && receipt.value.status == Processing && receipt.value.result == None
      requires receipt.value.owner == owner && receipt.value.token == token
      modifies this`user, this`receipt
      ensures Called(user, receipt, answer) == Proceed(q, old(user), old(receipt).value, fault)
    {
      if user == None { return USER_MISSING; }
      var before := user.value;
      if token > 1 && before.locale == q.locale && before.version == q.expected + 1 {
        var failure := CompleteLocaleMutation(owner, token, Profile(before));
        match failure { case Some(lost) => return lost; case None => return Done(before, true); }
      }
      var error := UpdateUserLocale(q.locale, q.expected, fault);
      if error != None {
        if error.value.kind == Internal { return error.value; }
        var failure := CompleteLocaleMutation(owner, token, Failure(error.value.kind, error.value.code));
        match failure { case Some(lost) => return lost; case None => return error.value; }
      }
      var after := user.value;
      var failure := CompleteLocaleMutation(owner, token, Profile(after));
      match failure { case Some(lost) => return lost; case None => return Done(after, false); }
    }

    /** Rejections and a reused key come before any state is touched; the rest is
        `CallIn`, and the rows are those of the worker's own steps. */
    method UpdateCurrentUserLocaleIdempotent(call: Call, owner: string, now: int, fault: Fault) returns (answer: Answer)
      modifies this
      ensures var q := Request(call.locale, call.expected);
        var untouched := user == old(user) && receipt == old(receipt) && request == old(request);
        if Rejection(call) != None then untouched && answer == Rejection(call).value
        else if old(receipt) != None && old(request) != q then
          untouched && answer == Error(Conflict, "backend.idempotency_key_reused")
        else
          && request == q
          && Called(user, receipt, answer) == CallIn(q, old(user), old(receipt), owner, now, fault)
          && Tells(q, old(user), old(receipt), now, Called(user, receipt, answer))
          && var end := Run(q, Alone(old(user), old(receipt)), OneCall(owner, now, fault));
             user == end.user && receipt == end.receipt
    {
      var q := Request(call.locale, call.expected);
      if Rejection(call) != None { return Rejection(call).value; }
      CallIsARun(q, user, receipt, owner, now, fault);
      CallTells(q, user, receipt, owner, now, fault);
      hide Run, Next, Tells;
      if receipt != None {
        if request != q { return Error(Conflict, "backend.idempotency_key_reused"); }
        var r := receipt.value;
        if r.status != Processing {
          if r.result == None { return INTERNAL; }
          return Replayed(r.result.value);
        }
        if now < r.expires { return Error(Conflict, "backend.idempotency_in_progress"); }
      }
      var token := if receipt == None then 1 else receipt.value.token + 1;
      receipt, request := Some(Receipt(Processing, owner, now + LEASE_TTL, token, None)), q;
      answer := Continue(q, owner, token, fault);
    }
  }
}
