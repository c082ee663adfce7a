/** The first administrator's one-time password: it is held in memory between
    the transaction that creates the administrator and the one claim that
    hands it over, while a durable receipt records both.

    Passwords are drawn at random and taken to be distinct, so a password is the
    number of the draw. A receipt's id is a hash of workspace and invocation,
    taken to be injective. */
module AdministratorCredential {
  import opened Options

  datatype ReceiptId = ReceiptId(workspace: string, invocation: string)

  datatype Request = Request(invocation: string, workspace: string, login: string, name: string)

  /** The durable receipt, with the password whose hash the user row holds. */
  datatype Receipt = Receipt(request: Request, password: nat, claimed: bool)

  /** A receipt that a transaction has inserted and not yet committed. */
  datatype Pending = Pending(transaction: nat, receipt: Receipt)

  /** A password in memory. */
  datatype Credential = Credential(workspace: string, login: string, password: nat, committed: bool)

  datatype Completion = Committed | RolledBack

  datatype Fault = NoFault | LoadFails | MarkFails | MarkedThenFails

  datatype Error =
    | RequestInvalid
    | IdempotencyConflict
    | AlreadyExists
    | StoreFailed
    | NotCommitted
    | Unavailable
    | AlreadyClaimed

  datatype Issued = Fresh(id: ReceiptId) | Replay(id: ReceiptId, claimed: bool) | NotIssued(error: Error)

  datatype Claimed = HandedOver(login: string, password: nat) | Withheld(error: Error)

  /** What history remembers of a claim. */
  datatype Handover = Handover(id: ReceiptId, password: nat)

  /** `credentials` is memory, `receipts` the committed rows, `pending` rows of
      open transactions. The rest is history: who each password was drawn for,
      which passwords were thrown away and which were handed over. */
  datatype World = World(
    credentials: map<ReceiptId, Credential>, receipts: map<ReceiptId, Receipt>, pending: map<ReceiptId, Pending>,
    drawn: seq<ReceiptId>, dropped: set<nat>, handed: seq<Handover>)

  predicate RequestOk(q: Request) {
    q.invocation != "" && q.workspace != "" && q.login != "" && q.name != ""
  }

  function IdOf(q: Request): ReceiptId {
    ReceiptId(q.workspace, q.invocation)
  }

  /** Forgets a password held in memory. */
  function Drop(w: World, id: ReceiptId): World {
    if id in w.credentials then
      w.(credentials := w.credentials - {id}, dropped := w.dropped + {w.credentials[id].password})
    else w
  }

  /** `occupied`: somebody is administrator already, or the login is taken.
      `fails`: drawing, hashing, inserting or auditing fails, and the host rolls
      its transaction back. Inserting fails while another open transaction
      holds the same receipt. */
  function BootstrapIn(w: World, q: Request, transaction: nat, occupied: bool, fails: bool): (World, Issued) {
    var id := IdOf(q);
    if !RequestOk(q) then (w, NotIssued(RequestInvalid))
    else if id in w.receipts then
      if w.receipts[id].request != q then (w, NotIssued(IdempotencyConflict))
      else (w, Replay(id, w.receipts[id].claimed))
    else if id in w.pending && w.pending[id].transaction == transaction then
      if w.pending[id].receipt.request != q then (w, NotIssued(IdempotencyConflict)) else (w, Replay(id, false))
    else if occupied then (w, NotIssued(AlreadyExists))
    else if fails || id in w.pending then (w, NotIssued(StoreFailed))
    else
      var password := |w.drawn|;
      var inserted :=
        w.(pending := w.pending[id := Pending(transaction, Receipt(q, password, false))], drawn := w.drawn + [id]);
      var cleared := Drop(inserted, id);
      (cleared.(credentials := cleared.credentials[id := Credential(q.workspace, q.login, password, false)]), Fresh(id))
  }

  function CompleteIn(w: World, workspace: string, id: ReceiptId, outcome: Completion, loadFails: bool)
    : (World, Option<Error>)
  {
    if workspace == "" then (w, Some(RequestInvalid))
    else match outcome
    case RolledBack => (Drop(w, id), None)
    case Committed =>
      if loadFails then (Drop(w, id), Some(StoreFailed))
      else if id !in w.receipts || id.workspace != workspace then (Drop(w, id), Some(NotCommitted))
      else if id !in w.credentials || w.credentials[id].workspace != workspace
              || w.credentials[id].login != w.receipts[id].request.login then (w, Some(Unavailable))
      else (w.(credentials := w.credentials[id := w.credentials[id].(committed := true)]), None)
  }

  function ClaimIn(w: World, workspace: string, id: ReceiptId, fault: Fault): (World, Claimed) {
    if id !in w.credentials || w.credentials[id].workspace != workspace || !w.credentials[id].committed
    then (w, Withheld(Unavailable))
    else if fault == LoadFails || id !in w.receipts || id.workspace != workspace then (w, Withheld(NotCommitted))
    else if w.receipts[id].claimed || fault == MarkFails then (w, Withheld(AlreadyClaimed))
    else
      var marked := w.(receipts := w.receipts[id := w.receipts[id].(claimed := true)]);
      if fault == MarkedThenFails then (marked, Withheld(AlreadyClaimed))
      else
        var c := w.credentials[id];
        (marked.(credentials := w.credentials - {id}, handed := w.handed + [Handover(id, c.password)]),
         HandedOver(c.login, c.password))
  }

  function CommitIn(w: World, transaction: nat): World {
    var done := map id | id in w.pending && w.pending[id].transaction == transaction :: w.pending[id].receipt;
    w.(receipts := w.receipts + done, pending := w.pending - done.Keys)
  }

  function RollBackIn(w: World, transaction: nat): World {
    w.(pending := map id | id in w.pending && w.pending[id].transaction != transaction :: w.pending[id])
  }

  /** A restart empties memory; open transactions may still end either way. */
  function RestartIn(w: World): World {
    w.(credentials := map[], dropped := w.dropped + set id | id in w.credentials :: w.credentials[id].password)
  }

  // ---------------------------------------------------------------------
  // The binding
  // ---------------------------------------------------------------------

  class Binding {
    var credentials: map<ReceiptId, Credential>
    var receipts: map<ReceiptId, Receipt>
    var pending: map<ReceiptId, Pending>
    var draws: nat
    ghost var drawn: seq<ReceiptId>
    ghost var dropped: set<nat>
    ghost var handed: seq<Handover>

    constructor ()
      ensures Current() == START && Valid()
    {
      credentials, receipts, pending := map[], map[], map[];
      draws, drawn, dropped, handed := 0, [], {}, [];
    }

    ghost predicate Valid()
      reads this
    {
      draws == |drawn|
    }

    ghost function Current(): World
      reads this
    {
      World(credentials, receipts, pending, drawn, dropped, handed)
    }

    method Discard(id: ReceiptId)
      requires Valid()
      modifies this
      ensures Valid() && Current() == Drop(old(Current()), id)
    {
      if id in credentials {
        dropped := dropped + {credentials[id].password};
        credentials := credentials - {id};
      }
    }

    method Bootstrap(q: Request, transaction: nat, occupied: bool, fails: bool) returns (issued: Issued)
      requires Valid()
      modifies this
      ensures Valid() && (Current(), issued) == BootstrapIn(old(Current()), q, transaction, occupied, fails)
    {
      if !RequestOk(q) { return NotIssued(RequestInvalid); }
      var id := IdOf(q);
      if id in receipts {
        if receipts[id].request != q { return NotIssued(IdempotencyConflict); }
        return Replay(id, receipts[id].claimed);
      }
      if id in pending && pending[id].transaction == transaction {
        if pending[id].receipt.request != q { return NotIssued(IdempotencyConflict); }
        return Replay(id, false);
      }
      if occupied { return NotIssued(AlreadyExists); }
      if fails || id in pending { return NotIssued(StoreFailed); }
      var password := draws;
      draws, drawn := draws + 1, drawn + [id];
      pending := pending[id := Pending(transaction, Receipt(q, password, false))];
      Discard(id);
      credentials := credentials[id := Credential(q.workspace, q.login, password, false)];
      return Fresh(id);
    }

    method Complete(workspace: string, id: ReceiptId, outcome: Completion, loadFails: bool)
      returns (error: Option<Error>)
      requires Valid()
      modifies this
      ensures Valid() && (Current(), error) == CompleteIn(old(Current()), workspace, id, outcome, loadFails)
    {
      if workspace == "" { return Some(RequestInvalid); }
      match outcome {
        case RolledBack =>
          Discard(id);
          return None;
        case Committed =>
          if loadFails {
            Discard(id);
            return Some(StoreFailed);
          }
          if id !in receipts || id.workspace != workspace {
            Discard(id);
            return Some(NotCommitted);
          }
          var matches := id in credentials && credentials[id].workspace == workspace
                         && credentials[id].login == receipts[id].request.login;
          if matches { credentials := credentials[id := credentials[id].(committed := true)]; }
          return if matches then None else Some(Unavailable);
      }
    }

    method Claim(workspace: string, id: ReceiptId, fault: Fault) returns (claimed: Claimed)
      requires Valid()
      modifies this
      ensures Valid() && (Current(), claimed) == ClaimIn(old(Current()), workspace, id, fault)
    {
      if id !in credentials || credentials[id].workspace != workspace || !credentials[id].committed {
        return Withheld(Unavailable);
      }
      if fault == LoadFails || id !in receipts || id.workspace != workspace { return Withheld(NotCommitted); }
      if receipts[id].claimed || fault == MarkFails { return Withheld(AlreadyClaimed); }
      receipts := receipts[id := receipts[id].(claimed := true)];
      if fault == MarkedThenFails { return Withheld(AlreadyClaimed); }
      var c := credentials[id];
      credentials := credentials - {id};
      handed := handed + [Handover(id, c.password)];
      return HandedOver(c.login, c.password);
    }
  }

  // ---------------------------------------------------------------------
  // Runs
  // ---------------------------------------------------------------------

  const START := World(map[], map[], map[], [], {}, [])

  datatype Step =
    | Bootstrap(request: Request, transaction: nat, occupied: bool, fails: bool)
    | Commit(transaction: nat)
    | RollBack(transaction: nat)
    | Complete(workspace: string, id: ReceiptId, outcome: Completion, loadFails: bool)
    | Claim(workspace: string, id: ReceiptId, fault: Fault)
    | Expire(id: ReceiptId)
    | Restart

  function Next(w: World, step: Step): World {
    match step
    case Bootstrap(q, t, occupied, fails) => BootstrapIn(w, q, t, occupied, fails).0
    case Commit(t) => CommitIn(w, t)
    case RollBack(t) => RollBackIn(w, t)
    case Complete(workspace, id, outcome, loadFails) => CompleteIn(w, workspace, id, outcome, loadFails).0
    case Claim(workspace, id, fault) => ClaimIn(w, workspace, id, fault).0
    case Expire(id) => Drop(w, id)
    case Restart => RestartIn(w)
  }

  function Run(steps: seq<Step>): World {
    if steps == [] then START else Next(Run(steps[..|steps| - 1]), steps[|steps| - 1])
  }

  /** A password was drawn for one receipt. */
  ghost predicate DrawnFor(w: World, password: nat, id: ReceiptId) {
    password < |w.drawn| && w.drawn[password] == id
  }

  /** Memory holds only passwords that were neither handed over nor thrown away, and
      one that is marked committed is the one its receipt was committed with. */
  ghost predicate MemoryOk(w: World) {
    forall id :: id in w.credentials ==>
      var c := w.credentials[id];
      && DrawnFor(w, c.password, id) && c.password !in w.dropped
      && (forall i :: 0 <= i < |w.handed| ==> w.handed[i].password != c.password)
      && (id in w.receipts ==> w.receipts[id].password == c.password)
      && (id in w.pending ==> w.pending[id].receipt.password == c.password)
      && (c.committed ==> id in w.receipts)
  }

  ghost predicate RowsOk(w: World) {
    && (forall id :: id in w.receipts ==> DrawnFor(w, w.receipts[id].password, id))
    && (forall id :: id in w.pending ==> DrawnFor(w, w.pending[id].receipt.password, id) && id !in w.receipts)
  }

  ghost predicate HandedOk(w: World) {
    && (forall i :: 0 <= i < |w.handed| ==>
          var r := w.handed[i];
          && r.id in w.receipts && w.receipts[r.id].claimed && w.receipts[r.id].password == r.password
          && r.password !in w.dropped)
    && (forall i, j :: 0 <= i < j < |w.handed| ==> w.handed[i].id != w.handed[j].id)
  }

  ghost predicate DroppedOk(w: World) {
    forall p :: p in w.dropped ==> p < |w.drawn|
  }

  ghost predicate Inv(w: World) {
    MemoryOk(w) && RowsOk(w) && HandedOk(w) && DroppedOk(w)
  }

  lemma DropKeepsInv(w: World, id: ReceiptId)
    requires Inv(w)
    ensures Inv(Drop(w, id))
  {
    if id in w.credentials {
      var p := w.credentials[id].password;
      forall i | 0 <= i < |w.handed| ensures w.handed[i].password != p {}
      forall k | k in w.credentials && k != id ensures w.credentials[k].password != p {
        assert DrawnFor(w, p, id) && DrawnFor(w, w.credentials[k].password, k);
      }
    }
  }

  function Insert(w: World, q: Request, t: nat): World {
    var id, password := IdOf(q), |w.drawn|;
    w.(drawn := w.drawn + [id], pending := w.pending[id := Pending(t, Receipt(q, password, false))],
       credentials := w.credentials[id := Credential(q.workspace, q.login, password, false)])
  }

  lemma InsertKeepsMemory(w: World, q: Request, t: nat)
    requires Inv(w) && IdOf(q) !in w.receipts && IdOf(q) !in w.pending && IdOf(q) !in w.credentials
    ensures MemoryOk(Insert(w, q, t))
  {
    var id, password, next := IdOf(q), |w.drawn|, Insert(w, q, t);
    forall i | 0 <= i < |w.handed| ensures w.handed[i].password != password {
      assert DrawnFor(w, w.handed[i].password, w.handed[i].id);
    }
    forall k | k in w.credentials ensures DrawnFor(next, w.credentials[k].password, k) {
      assert DrawnFor(w, w.credentials[k].password, k);
    }
  }

  lemma InsertKeepsInv(w: World, q: Request, t: nat)
    requires Inv(w) && IdOf(q) !in w.receipts && IdOf(q) !in w.pending && IdOf(q) !in w.credentials
    ensures Inv(Insert(w, q, t))
  {
    InsertKeepsMemory(w, q, t);
    hide MemoryOk;
    var id, next := IdOf(q), Insert(w, q, t);
    forall k | k in w.receipts ensures DrawnFor(next, w.receipts[k].password, k) {
      assert DrawnFor(w, w.receipts[k].password, k);
    }
    forall k | k in w.pending ensures DrawnFor(next, w.pending[k].receipt.password, k) {
      assert DrawnFor(w, w.pending[k].receipt.password, k);
    }
  }

  lemma BootstrapKeepsInv(w: World, q: Request, t: nat, occupied: bool, fails: bool)
    requires Inv(w)
    ensures Inv(BootstrapIn(w, q, t, occupied, fails).0)
  {
    var (next, issued) := BootstrapIn(w, q, t, occupied, fails);
    if issued.Fresh? {
      hide Inv;
      DropKeepsInv(w, IdOf(q));
      InsertKeepsInv(Drop(w, IdOf(q)), q, t);
    }
  }

  function Marked(w: World, id: ReceiptId): World
    requires id in w.receipts
  {
    w.(receipts := w.receipts[id := w.receipts[id].(claimed := true)])
  }

  lemma MarkKeepsInv(w: World, id: ReceiptId)
    requires Inv(w) && id in w.receipts
    ensures Inv(Marked(w, id))
  {
  }

  function HandOver(w: World, id: ReceiptId): World
    requires id in w.credentials && id in w.receipts
  {
    var p := w.credentials[id].password;
    Marked(w, id).(credentials := w.credentials - {id}, handed := w.handed + [Handover(id, p)])
  }

  lemma HandOverKeepsMemory(w: World, id: ReceiptId)
    requires Inv(w) && id in w.credentials && id in w.receipts
    ensures MemoryOk(HandOver(w, id))
  {
    hide RowsOk, HandedOk, DroppedOk;
    var p := w.credentials[id].password;
    forall k | k in w.credentials && k != id ensures w.credentials[k].password != p {
      assert DrawnFor(w, p, id) && DrawnFor(w, w.credentials[k].password, k);
    }
  }

  lemma HandOverKeepsHanded(w: World, id: ReceiptId)
    requires Inv(w) && id in w.credentials && id in w.receipts && !w.receipts[id].claimed
    ensures HandedOk(HandOver(w, id))
  {
    hide RowsOk, DroppedOk;
    forall i | 0 <= i < |w.handed| ensures w.handed[i].id != id { assert w.receipts[w.handed[i].id].claimed; }
  }

  lemma HandOverKeepsInv(w: World, id: ReceiptId)
    requires Inv(w) && id in w.credentials && id in w.receipts && !w.receipts[id].claimed
    ensures Inv(HandOver(w, id))
  {
    hide MemoryOk, HandedOk;
    HandOverKeepsMemory(w, id);
    HandOverKeepsHanded(w, id);
  }

  lemma ClaimKeepsInv(w: World, workspace: string, id: ReceiptId, fault: Fault)
    requires Inv(w)
    ensures Inv(ClaimIn(w, workspace, id, fault).0)
  {
    var (next, claimed) := ClaimIn(w, workspace, id, fault);
    if next != w {
      MarkKeepsInv(w, id);
      if claimed.HandedOver? {
        hide Inv;
        HandOverKeepsInv(w, id);
      }
    }
  }

  lemma CommitKeepsMemory(w: World, t: nat)
    requires Inv(w)
    ensures MemoryOk(CommitIn(w, t))
  {
    hide RowsOk, HandedOk, DroppedOk;
  }

  lemma CommitKeepsHanded(w: World, t: nat)
    requires Inv(w)
    ensures HandedOk(CommitIn(w, t))
  {
    hide MemoryOk, DroppedOk;
    var next := CommitIn(w, t);
    forall i | 0 <= i < |w.handed| ensures next.receipts[w.handed[i].id] == w.receipts[w.handed[i].id] {
      assert w.handed[i].id !in w.pending;
    }
  }

  lemma CommitKeepsInv(w: World, t: nat)
    requires Inv(w)
    ensures Inv(CommitIn(w, t))
  {
    hide MemoryOk, HandedOk;
    CommitKeepsMemory(w, t);
    CommitKeepsHanded(w, t);
    CommitKeepsRows(w, t);
  }

  lemma CommitKeepsRows(w: World, t: nat)
    requires RowsOk(w)
    ensures RowsOk(CommitIn(w, t))
  {
    var next := CommitIn(w, t);
    forall id | id in next.receipts ensures DrawnFor(next, next.receipts[id].password, id) {
      assert id in w.receipts || id in w.pending;
    }
  }

  lemma RollBackKeepsInv(w: World, t: nat)
    requires Inv(w)
    ensures Inv(RollBackIn(w, t))
  {
  }

  lemma ConfirmKeepsInv(w: World, id: ReceiptId)
    requires Inv(w) && id in w.credentials && id in w.receipts
    ensures Inv(w.(credentials := w.credentials[id := w.credentials[id].(committed := true)]))
  {
  }

  lemma CompleteKeepsInv(w: World, workspace: string, id: ReceiptId, outcome: Completion, loadFails: bool)
    requires Inv(w)
    ensures Inv(CompleteIn(w, workspace, id, outcome, loadFails).0)
  {
    hide Inv, Drop;
    DropKeepsInv(w, id);
    if id in w.credentials && id in w.receipts { ConfirmKeepsInv(w, id); }
  }

  lemma RestartKeepsInv(w: World)
    requires Inv(w)
    ensures Inv(RestartIn(w))
  {
    forall i, id | 0 <= i < |w.handed| && id in w.credentials
      ensures w.handed[i].password != w.credentials[id].password
    {
    }
    forall id | id in w.credentials
      ensures w.credentials[id].password < |w.drawn|
    {
      assert DrawnFor(w, w.credentials[id].password, id);
    }
  }

  lemma StepKeepsInv(w: World, step: Step)
    requires Inv(w)
    ensures Inv(Next(w, step))
  {
    hide Inv, BootstrapIn, CommitIn, RollBackIn, CompleteIn, ClaimIn, Drop, RestartIn;
    match step
    case Bootstrap(q, t, occupied, fails) => BootstrapKeepsInv(w, q, t, occupied, fails);
    case Commit(t) => CommitKeepsInv(w, t);
    case RollBack(t) => RollBackKeepsInv(w, t);
    case Complete(workspace, id, outcome, loadFails) => CompleteKeepsInv(w, workspace, id, outcome, loadFails);
    case Claim(workspace, id, fault) => ClaimKeepsInv(w, workspace, id, fault);
    case Expire(id) => DropKeepsInv(w, id);
    case Restart => RestartKeepsInv(w);
  }

  lemma {:induction false} RunKeepsInv(steps: seq<Step>)
    ensures Inv(Run(steps))
  {
    if steps != [] {
      RunKeepsInv(steps[..|steps| - 1]);
      StepKeepsInv(Run(steps[..|steps| - 1]), steps[|steps| - 1]);
    }
  }

  /** In every run, with crashes, time-outs, restarts and transactions that end
      either way: a receipt's password is handed over at most once and no
      password twice; it is the one the committed receipt was made with; and no
      password that was ever thrown away is among them. */
  lemma {:induction false} EveryRunIsSafe(steps: seq<Step>)
    ensures var w := Run(steps);
      && (forall i :: 0 <= i < |w.handed| ==>
            var h := w.handed[i];
            && h.id in w.receipts && w.receipts[h.id].claimed && w.receipts[h.id].password == h.password
            && h.password !in w.dropped)
      && (forall i, j :: 0 <= i < j < |w.handed| ==>
            w.handed[i].id != w.handed[j].id && w.handed[i].password != w.handed[j].password)
  {
    RunKeepsInv(steps);
    var w := Run(steps);
    forall i, j | 0 <= i < j < |w.handed| ensures w.handed[i].password != w.handed[j].password {
      assert DrawnFor(w, w.handed[i].password, w.handed[i].id) && DrawnFor(w, w.handed[j].password, w.handed[j].id);
    }
  }

  /** History only grows, receipts stay and keep their passwords. */
  ghost predicate Grows(a: World, b: World) {
    && a.dropped <= b.dropped && a.handed <= b.handed && a.drawn <= b.drawn
    && (forall id :: id in a.receipts ==>
          id in b.receipts && b.receipts[id].password == a.receipts[id].password
          && b.receipts[id].request == a.receipts[id].request && (a.receipts[id].claimed ==> b.receipts[id].claimed))
  }

  lemma StepGrows(w: World, step: Step)
    requires Inv(w)
    ensures Grows(w, Next(w, step))
  {
    hide MemoryOk, HandedOk, DroppedOk, Grows, BootstrapIn, CommitIn, CompleteIn, ClaimIn;
    match step
    case Bootstrap(q, t, occupied, fails) => BootstrapGrows(w, q, t, occupied, fails);
    case Commit(t) => CommitGrows(w, t);
    case Complete(workspace, id, outcome, loadFails) => CompleteGrows(w, workspace, id, outcome, loadFails);
    case Claim(workspace, id, fault) => ClaimGrows(w, workspace, id, fault);
    case _ => MemoryGrows(w, step);
  }

  lemma MemoryGrows(w: World, step: Step)
    requires step.RollBack? || step.Expire? || step.Restart?
    ensures Grows(w, Next(w, step))
  {
  }

  lemma CompleteGrows(w: World, workspace: string, id: ReceiptId, outcome: Completion, loadFails: bool)
    ensures Grows(w, CompleteIn(w, workspace, id, outcome, loadFails).0)
  {
  }

  lemma ClaimGrows(w: World, workspace: string, id: ReceiptId, fault: Fault)
    ensures Grows(w, ClaimIn(w, workspace, id, fault).0)
  {
  }

  lemma BootstrapGrows(w: World, q: Request, t: nat, occupied: bool, fails: bool)
    ensures Grows(w, BootstrapIn(w, q, t, occupied, fails).0)
  {
  }

  lemma CommitGrows(w: World, t: nat)
    requires RowsOk(w)
    ensures Grows(w, CommitIn(w, t))
  {
  }

  lemma {:induction false} RunGrows(steps: seq<Step>, more: seq<Step>)
    ensures Grows(Run(steps), Run(steps + more))
  {
    if more == [] {
      assert steps + more == steps;
    } else {
      var n := |more| - 1;
      var all := steps + more;
      assert all[..|all| - 1] == steps + more[..n] && all[|all| - 1] == more[n];
      RunGrows(steps, more[..n]);
      RunKeepsInv(steps + more[..n]);
      StepGrows(Run(steps + more[..n]), more[n]);
    }
  }

  /** A rollback reported for a receipt ends the password then in memory: no
      later step of any run hands it over. */
  lemma RolledBackStaysHidden(steps: seq<Step>, workspace: string, id: ReceiptId, loadFails: bool, more: seq<Step>)
    requires id in Run(steps).credentials && workspace != ""
    ensures var all := steps + [Complete(workspace, id, RolledBack, loadFails)] + more;
      forall i :: 0 <= i < |Run(all).handed| ==> Run(all).handed[i].password != Run(steps).credentials[id].password
  {
    var upTo := steps + [Complete(workspace, id, RolledBack, loadFails)];
    assert upTo[..|upTo| - 1] == steps;
    assert Run(steps).credentials[id].password in Run(upTo).dropped;
    RunGrows(upTo, more);
    EveryRunIsSafe(upTo + more);
  }

  /** A claim hands over a password only after a commit was reported and seen,
      and only if no claim did before; the password is the committed one. */
  lemma {:induction false} ClaimNeedsCommit(steps: seq<Step>, workspace: string, id: ReceiptId, fault: Fault)
    requires ClaimIn(Run(steps), workspace, id, fault).1.HandedOver?
    ensures var w := Run(steps);
      && id in w.receipts && !w.receipts[id].claimed
      && ClaimIn(w, workspace, id, fault).1 == HandedOver(w.credentials[id].login, w.receipts[id].password)
      && (forall i :: 0 <= i < |w.handed| ==> w.handed[i].id != id)
  {
    RunKeepsInv(steps);
    var w := Run(steps);
    forall i | 0 <= i < |w.handed| ensures w.handed[i].id != id { assert w.receipts[w.handed[i].id].claimed; }
  }

  /** Exactly when a claim hands the password over: the credential and the receipt
      are of the workspace that claims, the commit was reported, nobody claimed
      before, and nothing fails. Otherwise memory keeps what it holds. */
  lemma ClaimHandsOverIff(w: World, workspace: string, id: ReceiptId, fault: Fault)
    ensures var (next, claimed) := ClaimIn(w, workspace, id, fault);
      && (claimed.HandedOver? <==>
            && id in w.credentials && w.credentials[id].workspace == workspace && w.credentials[id].committed
            && id in w.receipts && id.workspace == workspace && !w.receipts[id].claimed && fault == NoFault)
      && (claimed.HandedOver? ==>
            && claimed == HandedOver(w.credentials[id].login, w.credentials[id].password)
            && next == w.(receipts := w.receipts[id := w.receipts[id].(claimed := true)],
                          credentials := w.credentials - {id},
                          handed := w.handed + [Handover(id, w.credentials[id].password)]))
      && (claimed.Withheld? ==> next.credentials == w.credentials && next.handed == w.handed)
      && (claimed.Withheld? && fault != MarkedThenFails ==> next == w)
  {
  }

  /** In every run a claim by another workspace than the receipt's is withheld and
      changes nothing. */
  lemma OtherWorkspaceWithheld(steps: seq<Step>, workspace: string, id: ReceiptId, fault: Fault)
    requires workspace != id.workspace
    ensures var (next, claimed) := ClaimIn(Run(steps), workspace, id, fault);
      claimed.Withheld? && next == Run(steps)
  {
  }

  /** Exactly when a reported commit makes a credential claimable: a committed
      receipt of this workspace with this login backs it. A commit that no such
      receipt backs, or that cannot be looked up, forgets the password. */
  lemma CommitConfirmsIff(w: World, workspace: string, id: ReceiptId, loadFails: bool)
    requires workspace != ""
    ensures var (next, error) := CompleteIn(w, workspace, id, Committed, loadFails);
      && (error == None <==>
            && !loadFails && id in w.receipts && id.workspace == workspace && id in w.credentials
            && w.credentials[id].workspace == workspace && w.credentials[id].login == w.receipts[id].request.login)
      && (error == None ==> next == w.(credentials := w.credentials[id := w.credentials[id].(committed := true)]))
      && (loadFails || id !in w.receipts || id.workspace != workspace ==> id !in next.credentials)
      && next.receipts == w.receipts && next.handed == w.handed
  {
  }

  /** Exactly when a bootstrap draws a new password: the request is complete, its
      receipt is neither committed nor pending, nobody is administrator yet, and
      nothing fails. A known receipt is replayed to the same request alone. */
  lemma BootstrapIssuesIff(w: World, q: Request, t: nat, occupied: bool, fails: bool)
    ensures var (next, issued) := BootstrapIn(w, q, t, occupied, fails);
      var id := ReceiptId(q.workspace, q.invocation);
      var complete := q.invocation != "" && q.workspace != "" && q.login != "" && q.name != "";
      && (issued.Fresh? <==> complete && id !in w.receipts && id !in w.pending && !occupied && !fails)
      && (issued.Fresh? ==> issued == Fresh(id) && next.drawn == w.drawn + [id]
                            && next.pending == w.pending[id := Pending(t, Receipt(q, |w.drawn|, false))])
      && (!issued.Fresh? ==> next == w)
      && (complete && id in w.receipts ==>
            issued == if w.receipts[id].request == q then Replay(id, w.receipts[id].claimed)
                      else NotIssued(IdempotencyConflict))
      && (complete && id !in w.receipts && id in w.pending ==>
            if w.pending[id].transaction != t then issued == NotIssued(if occupied then AlreadyExists else StoreFailed)
            else issued == if w.pending[id].receipt.request == q then Replay(id, false)
                           else NotIssued(IdempotencyConflict))
      && (!complete ==> issued == NotIssued(RequestInvalid))
      && (complete && id !in w.receipts && id !in w.pending && occupied ==> issued == NotIssued(AlreadyExists))
  {
  }

  lemma BootstrapIssues(w: World, q: Request, t: nat)
    requires RequestOk(q) && IdOf(q) !in w.receipts && IdOf(q) !in w.pending
    ensures var next := BootstrapIn(w, q, t, false, false).0;
      && IdOf(q) in next.pending && next.pending[IdOf(q)] == Pending(t, Receipt(q, |w.drawn|, false))
      && IdOf(q) in next.credentials && next.credentials[IdOf(q)] == Credential(q.workspace, q.login, |w.drawn|, false)
  {
  }

  lemma CommitPublishes(w: World, id: ReceiptId)
    requires id in w.pending
    ensures var next := CommitIn(w, w.pending[id].transaction);
      && id in next.receipts && next.receipts[id] == w.pending[id].receipt && next.credentials == w.credentials
  {
  }

  /** When nothing goes wrong the password does arrive: bootstrap, commit, report
      and claim, with anything before them. */
  lemma HappyPathHandsOver(steps: seq<Step>, q: Request, t: nat)
    requires RequestOk(q) && IdOf(q) !in Run(steps).receipts && IdOf(q) !in Run(steps).pending
    ensures var id := IdOf(q);
      var w := Next(Next(Next(Run(steps), Bootstrap(q, t, false, false)), Commit(t)),
                    Complete(q.workspace, id, Committed, false));
      ClaimIn(w, q.workspace, id, NoFault).1 == HandedOver(q.login, |Run(steps).drawn|)
  {
    var w := Run(steps);
    BootstrapIssues(w, q, t);
    CommitPublishes(BootstrapIn(w, q, t, false, false).0, IdOf(q));
    hide BootstrapIn, CommitIn, Run;
  }
}
