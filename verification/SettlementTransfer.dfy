/**
 Journaled settlement transfers: any number of concurrent, crashed and restarted
 helper runs over one journal file, as a step relation cut at every await and file operation.
 */
module SettlementTransfer {
  import opened Wrappers

  const JOURNAL_SCHEMA_VERSION: nat := 1
  const MAX_TRANSFER_AMOUNT: nat := 0xffff_ffff_ffff_ffff_ffff_ffff_ffff_ffff

  datatype Request = Request(
    operationId: string, network: string, from: string, to: string, amount: int, expectedBefore: Option<string>)

  datatype Payload = Payload(address: string, to: string, amount: int, tx: nat, txv: nat, nonce: nat, signature: nat)

  datatype Status = Prepared | Confirmed

  datatype Journal = Journal(
    schemaVersion: nat, operationId: string, network: string, from: string, to: string, amount: int,
    beforeBalance: string, txHash: nat, status: Status, payload: Payload, confirmedLength: Option<nat>)

  /** The journal file; `Torn` is one that was created but never completely written. */
  datatype File = Absent | Torn | Stored(journal: Journal)

  /** The hash and signature check of the network's wallet library. */
  datatype Crypto = Crypto(
    hash: (string, nat, string, int, nat) -> nat,
    verify: (nat, nat, string) -> bool)

  datatype Pc =
    | Looking
    | Reading
    | Preparing
    | Creating(journal: Journal)
    | Filling(journal: Journal)
    | Collided
    | Checking(journal: Journal)
    | Broadcasting(journal: Journal)
    | Waiting(journal: Journal)
    | Settling(journal: Journal, length: nat)
    | Renaming(journal: Journal)
    | Done(tx: nat)
    | Failed

  datatype Run = Run(request: Request, pc: Pc)

  /** `ctx` is the context transactions must name to execute now. */
  datatype Net = Net(ctx: nat, pool: set<Payload>, executed: set<Payload>, signed: set<nat>)

  datatype System = System(file: File, runs: map<nat, Run>, net: Net)

  datatype Action =
    | Launch(id: nat, request: Request)
    | Look(id: nat)
    | Read(id: nat)
    | Prepare(id: nat, payload: Payload, before: string)
    | Create(id: nat)
    | Fill(id: nat, ok: bool)
    | ReadAfterCollision(id: nat)
    | Check(id: nat, seen: bool, length: nat)
    | Broadcast(id: nat, delivered: bool, accepted: bool)
    | Poll(id: nat, length: nat)
    | Settle(id: nat, matches: bool)
    | Rename(id: nat)
    | Fail(id: nat)
    | Crash(id: nat)
    | Rotate(ctx: nat)
    | Execute(payload: Payload)
    | Sign(tx: nat)

  /** `validateSettlementTransferJournal`: does the file answer this request? */
  predicate ValidJournal(j: Journal, r: Request) {
    && j.schemaVersion == JOURNAL_SCHEMA_VERSION
    && j.operationId == r.operationId && j.network == r.network
    && j.from == r.from && j.to == r.to && j.amount == r.amount
    && j.payload.address == r.from && j.payload.to == r.to && j.payload.amount == r.amount
    && j.txHash == j.payload.tx
  }

  /** `validatePreparedSettlementTransferPayload`. */
  predicate ValidPayload(c: Crypto, p: Payload, r: Request, txHash: Option<nat>) {
    && 0 < r.amount <= MAX_TRANSFER_AMOUNT
    && p.address == r.from && p.to == r.to && p.amount == r.amount
    && (txHash.Some? ==> p.tx == txHash.value)
    && p.tx == c.hash(r.network, p.txv, p.to, p.amount, p.nonce)
    && c.verify(p.signature, p.tx, r.from)
  }

  function NewJournal(r: Request, p: Payload, before: string): Journal {
    Journal(JOURNAL_SCHEMA_VERSION, r.operationId, r.network, r.from, r.to, r.amount, before, p.tx, Prepared, p, None)
  }

  predicate At(s: System, id: nat) { id in s.runs }

  /**
   Network facts: validators only see what was delivered, a transaction executes once and only in the context it
   names, signing follows execution.
   */
  ghost predicate Enabled(c: Crypto, s: System, a: Action) {
    match a
    case Launch(id, _) => id !in s.runs
    case Look(id) => At(s, id) && s.runs[id].pc.Looking?
    case Read(id) => At(s, id) && s.runs[id].pc.Reading?
    case Prepare(id, _, _) => At(s, id) && s.runs[id].pc.Preparing?
    case Create(id) => At(s, id) && s.runs[id].pc.Creating?
    case Fill(id, _) => At(s, id) && s.runs[id].pc.Filling?
    case ReadAfterCollision(id) => At(s, id) && s.runs[id].pc.Collided?
    case Check(id, seen, _) => At(s, id) && s.runs[id].pc.Checking?
                               && (seen ==> s.runs[id].pc.journal.payload.tx in s.net.signed)
    case Broadcast(id, _, _) => At(s, id) && s.runs[id].pc.Broadcasting?
    case Poll(id, _) => At(s, id) && s.runs[id].pc.Waiting? && s.runs[id].pc.journal.payload.tx in s.net.signed
    case Settle(id, _) => At(s, id) && s.runs[id].pc.Settling?
    case Rename(id) => At(s, id) && s.runs[id].pc.Renaming?
    case Fail(id) => At(s, id)
    case Crash(id) => At(s, id)
    case Rotate(x) => x != s.net.ctx
    case Execute(p) => p in s.net.pool && p.txv == s.net.ctx && forall q :: q in s.net.executed ==> q.tx != p.tx
    case Sign(tx) => exists p :: p in s.net.executed && p.tx == tx
  }

  function Goto(s: System, id: nat, pc: Pc): System
    requires At(s, id)
  {
    s.(runs := s.runs[id := s.runs[id].(pc := pc)])
  }

  function Apply(c: Crypto, s: System, a: Action): System
    requires Enabled(c, s, a)
  {
    match a
    case Launch(id, r) =>
      s.(runs := s.runs[id := Run(r, if 0 < r.amount <= MAX_TRANSFER_AMOUNT then Looking else Failed)])
    case Look(id) => Goto(s, id, if s.file.Absent? then Preparing else Reading)
    case Read(id) => Goto(s, id, LoadFirst(s.file, s.runs[id].request))
    case Prepare(id, p, before) => Goto(s, id, Prepared'(c, s.runs[id].request, p, before))
    // open(file, 'wx'): exclusive, and the file is empty until it is filled
    case Create(id) =>
      if s.file.Absent? then Goto(s, id, Filling(s.runs[id].pc.journal)).(file := Torn)
      else Goto(s, id, Collided)
    case Fill(id, ok) =>
      if ok then Goto(s, id, Checking(s.runs[id].pc.journal)).(file := Stored(s.runs[id].pc.journal))
      else Goto(s, id, Failed)
    case ReadAfterCollision(id) => Goto(s, id, Load(s.file, s.runs[id].request))
    case Check(id, seen, length) =>
      var j := s.runs[id].pc.journal;
      if !ValidPayload(c, j.payload, s.runs[id].request, Some(j.txHash)) then Goto(s, id, Failed)
      else if seen then Goto(s, id, Settling(j, length))
      else Goto(s, id, Broadcasting(j))
    case Broadcast(id, delivered, accepted) =>
      var j := s.runs[id].pc.journal;
      var net := if delivered then s.net.(pool := s.net.pool + {j.payload}) else s.net;
      Goto(s, id, if accepted then Waiting(j) else Failed).(net := net)
    case Poll(id, length) => Goto(s, id, Settling(s.runs[id].pc.journal, length))
    case Settle(id, matches) => Goto(s, id, Settled(s.runs[id].pc.journal, s.runs[id].pc.length, matches))
    case Rename(id) =>
      var j := s.runs[id].pc.journal;
      Goto(s, id, Done(j.payload.tx)).(file := Stored(j))
    case Fail(id) => Goto(s, id, Failed)
    case Crash(id) => s.(runs := s.runs - {id})
    case Rotate(x) => s.(net := s.net.(ctx := x))
    case Execute(p) => s.(net := s.net.(executed := s.net.executed + {p}))
    case Sign(tx) => s.(net := s.net.(signed := s.net.signed + {tx}))
  }

  function Load(f: File, r: Request): Pc {
    if f.Stored? && ValidJournal(f.journal, r) then Checking(f.journal) else Failed
  }

  /** A journal found at the start must also carry the balance the caller expects. */
  function LoadFirst(f: File, r: Request): Pc {
    if f.Stored? && r.expectedBefore.Some? && f.journal.beforeBalance != r.expectedBefore.value then Failed
    else Load(f, r)
  }

  function Prepared'(c: Crypto, r: Request, p: Payload, before: string): Pc {
    if r.expectedBefore.Some? && before != r.expectedBefore.value then Failed
    else if !ValidPayload(c, p, r, None) then Failed
    else Creating(NewJournal(r, p, before))
  }

  function Settled(j: Journal, length: nat, matches: bool): Pc {
    if !matches then Failed
    else if j.status == Confirmed && j.confirmedLength == Some(length) then Done(j.payload.tx)
    else Renaming(j.(status := Confirmed, confirmedLength := Some(length)))
  }

  predicate Init(s: System) {
    s.file.Absent? && s.runs == map[] && s.net == Net(s.net.ctx, {}, {}, {})
  }

  ghost predicate IsRun(c: Crypto, s: System, run: seq<Action>)
    decreases |run|
  {
    run == [] || (Enabled(c, s, run[0]) && IsRun(c, Apply(c, s, run[0]), run[1..]))
  }

  ghost function After(c: Crypto, s: System, run: seq<Action>): System
    requires IsRun(c, s, run)
    decreases |run|
  {
    if run == [] then s else After(c, Apply(c, s, run[0]), run[1..])
  }

  // ---- invariant ----

  predicate Holds(pc: Pc) {
    pc.Checking? || pc.Broadcasting? || pc.Waiting? || pc.Settling? || pc.Renaming?
  }

  /** Same order for the same money, whatever its status. */
  predicate SameOrder(j: Journal, f: Journal) {
    j == f.(status := j.status, confirmedLength := j.confirmedLength)
  }

  predicate FileOk(f: File, net: Net) {
    f.Stored? ==> f.journal.txHash == f.journal.payload.tx
                  && (f.journal.status == Confirmed ==> f.journal.payload.tx in net.signed)
  }

  predicate RunOk(f: File, net: Net, r: Run) {
    && (Holds(r.pc) ==> f.Stored? && SameOrder(r.pc.journal, f.journal) && ValidJournal(r.pc.journal, r.request)
                        && (r.pc.journal.status == Confirmed ==> r.pc.journal.payload.tx in net.signed))
    && (r.pc.Filling? ==> f.Torn?)
    && (r.pc.Creating? || r.pc.Filling? ==> ValidJournal(r.pc.journal, r.request) && r.pc.journal.status == Prepared)
    && (r.pc.Settling? || r.pc.Renaming? ==> r.pc.journal.payload.tx in net.signed)
    && (r.pc.Done? ==> r.pc.tx in net.signed && f.Stored? && f.journal.payload.tx == r.pc.tx && ValidJournal(f.journal, r.request))
  }

  ghost predicate Inv(s: System) {
    && FileOk(s.file, s.net)
    && (forall id :: id in s.runs ==> RunOk(s.file, s.net, s.runs[id]))
    && (forall i, k :: i in s.runs && k in s.runs && s.runs[i].pc.Filling? && s.runs[k].pc.Filling? ==> i == k)
    && (forall p :: p in s.net.pool ==> s.file.Stored? && p == s.file.journal.payload)
    && s.net.executed <= s.net.pool
    && (forall t :: t in s.net.signed ==> exists p :: p in s.net.executed && p.tx == t)
  }

  /** One run moves; the file keeps its order. */
  lemma MoveOne(s: System, id: nat, pc: Pc, f: File)
    requires Inv(s) && At(s, id) && FileOk(f, s.net)
    requires RunOk(f, s.net, s.runs[id].(pc := pc)) && !pc.Filling?
    requires f == s.file || (s.file.Stored? && f.Stored? && SameOrder(f.journal, s.file.journal))
                         || (s.file.Torn? && f.Stored? && s.runs[id].pc.Filling?)
    ensures Inv(Goto(s, id, pc).(file := f))
  {}

  lemma CreatePreserves(c: Crypto, s: System, a: Action)
    requires Inv(s) && Enabled(c, s, a) && a.Create?
    ensures Inv(Apply(c, s, a))
  {}

  lemma BroadcastPreserves(c: Crypto, s: System, a: Action)
    requires Inv(s) && Enabled(c, s, a) && a.Broadcast?
    ensures Inv(Apply(c, s, a))
  {}

  lemma LedgerPreserves(c: Crypto, s: System, a: Action)
    requires Inv(s) && Enabled(c, s, a) && (a.Execute? || a.Sign? || a.Rotate?)
    ensures Inv(Apply(c, s, a))
  {
    var e := Apply(c, s, a);
    forall id | id in e.runs ensures RunOk(e.file, e.net, e.runs[id]) {
      assert RunOk(s.file, s.net, s.runs[id]);
    }
    forall t | t in e.net.signed ensures exists q :: q in e.net.executed && q.tx == t {
      var q :| q in s.net.executed && q.tx == t;
      assert q in e.net.executed;
    }
  }

  predicate Loads(a: Action) { a.Look? || a.Read? || a.Prepare? || a.ReadAfterCollision? || a.Fail? }

  lemma LoadPreserves(c: Crypto, s: System, a: Action)
    requires Inv(s) && Enabled(c, s, a) && Loads(a)
    ensures Inv(Apply(c, s, a))
  {
    assert RunOk(s.file, s.net, s.runs[a.id]);
    var pc := Apply(c, s, a).runs[a.id].pc;
    assert RunOk(s.file, s.net, s.runs[a.id].(pc := pc));
    MoveOne(s, a.id, pc, s.file);
  }

  predicate Writes(a: Action) { a.Fill? || a.Rename? || a.Check? || a.Poll? || a.Settle? }

  lemma WritePreserves(c: Crypto, s: System, a: Action)
    requires Inv(s) && Enabled(c, s, a) && Writes(a)
    ensures Inv(Apply(c, s, a))
  {
    assert RunOk(s.file, s.net, s.runs[a.id]);
    var e := Apply(c, s, a);
    assert RunOk(e.file, s.net, s.runs[a.id].(pc := e.runs[a.id].pc));
    MoveOne(s, a.id, e.runs[a.id].pc, e.file);
  }

  lemma StepPreserves(c: Crypto, s: System, a: Action)
    requires Inv(s) && Enabled(c, s, a)
    ensures Inv(Apply(c, s, a))
  {
    if Loads(a) { LoadPreserves(c, s, a); }
    else if Writes(a) { WritePreserves(c, s, a); }
    else if a.Create? { CreatePreserves(c, s, a); }
    else if a.Broadcast? { BroadcastPreserves(c, s, a); }
    else if a.Execute? || a.Sign? || a.Rotate? { LedgerPreserves(c, s, a); }
  }

  lemma {:induction false} RunPreserves(c: Crypto, s: System, run: seq<Action>)
    requires Inv(s) && IsRun(c, s, run)
    ensures Inv(After(c, s, run))
    decreases |run|
  {
    if run != [] {
      StepPreserves(c, s, run[0]);
      RunPreserves(c, Apply(c, s, run[0]), run[1..]);
    }
  }

  // ---- what every run guarantees ----

  /**
   Over one journal file, whatever runs are launched with whatever requests, interleaved,
   crashed and restarted: everything broadcast is the one payload in the journal, at most one
   transfer executes, and a journal marked confirmed names a transaction in signed state.
   */
  lemma OneTransferPerJournal(c: Crypto, s: System, run: seq<Action>)
    requires Init(s) && IsRun(c, s, run)
    ensures var e := After(c, s, run);
            && (forall p :: p in e.net.pool ==> e.file.Stored? && p == e.file.journal.payload)
            && (forall p, q :: p in e.net.executed && q in e.net.executed ==> p == q)
            && (e.file.Stored? && e.file.journal.status == Confirmed ==> e.file.journal.payload.tx in e.net.signed)
  {
    RunPreserves(c, s, run);
  }

  /** A run that reports success: exactly its own transfer executed, and signed state shows it. */
  lemma SuccessMeansPaid(c: Crypto, s: System, run: seq<Action>, id: nat)
    requires Init(s) && IsRun(c, s, run)
    requires id in After(c, s, run).runs && After(c, s, run).runs[id].pc.Done?
    ensures var e := After(c, s, run);
            var r := e.runs[id].request;
            exists p :: p in e.net.executed && p.tx == e.runs[id].pc.tx && p.tx in e.net.signed
                        && p.address == r.from && p.to == r.to && p.amount == r.amount
  {
    RunPreserves(c, s, run);
    var e := After(c, s, run);
    assert RunOk(e.file, e.net, e.runs[id]);
    var p :| p in e.net.executed && p.tx == e.runs[id].pc.tx;
    assert p == e.file.journal.payload;
  }

  /** What was first written stays: the order in the journal never changes afterwards. */
  lemma {:induction false} FirstOrderIsFinal(c: Crypto, s: System, run: seq<Action>)
    requires Inv(s) && s.file.Stored? && IsRun(c, s, run)
    ensures var e := After(c, s, run); e.file.Stored? && SameOrder(e.file.journal, s.file.journal)
    decreases |run|
  {
    if run != [] {
      var a := run[0];
      var m := Apply(c, s, a);
      if a.Rename? { assert RunOk(s.file, s.net, s.runs[a.id]); }
      StepPreserves(c, s, a);
      FirstOrderIsFinal(c, m, run[1..]);
    }
  }

  /** A crash while the exclusive file is being filled stops the operation for good: nothing is ever sent. */
  lemma {:induction false} TornJournalNeverPays(c: Crypto, s: System, run: seq<Action>)
    requires Inv(s) && s.file.Torn? && IsRun(c, s, run)
    requires forall id :: id in s.runs ==> !s.runs[id].pc.Filling?
    ensures After(c, s, run).file.Torn? && After(c, s, run).net.pool == {} && After(c, s, run).net.executed == {}
    decreases |run|
  {
    if run != [] {
      var a := run[0];
      StepPreserves(c, s, a);
      TornJournalNeverPays(c, Apply(c, s, a), run[1..]);
    }
  }

  // ---- the polling loop ----

  /** `waitForConfirmation`: the first of at most `timeout` + 1 polls that shows the transaction, if any does. */
  method WaitForConfirmation(timeout: nat, signed: nat -> bool) returns (seen: Option<nat>)
    ensures seen.Some? ==> seen.value <= timeout && signed(seen.value) && forall k: nat :: k < seen.value ==> !signed(k)
    ensures seen.None? ==> forall k: nat :: k <= timeout ==> !signed(k)
  {
    var waited: nat := 0;
    while waited <= timeout
      invariant forall k: nat :: k < waited ==> !signed(k)
    {
      if signed(waited) { return Some(waited); }
      waited := waited + 1;
    }
    return None;
  }
}
