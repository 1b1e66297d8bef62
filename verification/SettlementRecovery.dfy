/**
 When a settlement can still be completed: from every state that runs, crashes and restarts leave behind, a fresh
 run can succeed exactly if the journal file answers its request and the network is, or comes back to be, in the
 context the journalled transfer names.
 */
module SettlementRecovery {
  import opened Wrappers
  import opened SettlementTransfer

  /** The stored order is the one requested, its balance the one expected, its payload genuine. */
  predicate Answers(c: Crypto, j: Journal, r: Request) {
    && ValidJournal(j, r)
    && (r.expectedBefore.Some? ==> j.beforeBalance == r.expectedBefore.value)
    && ValidPayload(c, j.payload, r, Some(j.txHash))
  }

  predicate Succeeded(s: System, id: nat, r: Request) {
    id in s.runs && s.runs[id].request == r && s.runs[id].pc.Done?
  }

  /** What the network's context may do: anything, anything but go to one context, or nothing. */
  datatype Moves = Anything | NeverTo(ctx: nat) | Staying

  predicate Respects(run: seq<Action>, moves: Moves) {
    match moves
    case Anything => true
    case NeverTo(x) => forall i :: 0 <= i < |run| ==> run[i] != Rotate(x)
    case Staying => forall i :: 0 <= i < |run| ==> !run[i].Rotate?
  }

  /** Some continuation, the context moving as allowed, ends with the run having succeeded. */
  ghost predicate CanSucceed(c: Crypto, s: System, id: nat, r: Request, moves: Moves) {
    exists run :: IsRun(c, s, run) && Respects(run, moves) && Succeeded(After(c, s, run), id, r)
  }

  ghost predicate Payable(c: Crypto, r: Request) {
    exists p :: ValidPayload(c, p, r, None)
  }

  ghost predicate PayableIn(c: Crypto, r: Request, ctx: nat) {
    exists p :: ValidPayload(c, p, r, None) && p.txv == ctx
  }

  predicate Fills(s: System, k: nat) { k in s.runs && s.runs[k].pc.Filling? }

  /** No journal yet and the request can be paid; or the journal, or the one being filled in, answers it. */
  ghost predicate Recoverable(c: Crypto, s: System, r: Request) {
    match s.file
    case Absent => Payable(c, r)
    case Stored(j) => Answers(c, j, r)
    case Torn => exists k :: Fills(s, k) && Answers(c, s.runs[k].pc.journal, r)
  }

  /** The same, and the transfer can execute in the present context or has executed already. */
  ghost predicate RecoverableHere(c: Crypto, s: System, r: Request) {
    match s.file
    case Absent => PayableIn(c, r, s.net.ctx)
    case Stored(j) => Answers(c, j, r) && (j.payload.txv == s.net.ctx || s.net.executed != {})
    case Torn =>
      exists k ::
        && Fills(s, k)
        && Answers(c, s.runs[k].pc.journal, r)
        && s.runs[k].pc.journal.payload.txv == s.net.ctx
  }

  // ---- a continuation that succeeds, the context staying ----

  /** A run that succeeds, in the context there is. */
  ghost predicate Reaches(c: Crypto, s: System, run: seq<Action>, id: nat, r: Request) {
    IsRun(c, s, run) && Respects(run, Staying) && Succeeded(After(c, s, run), id, r)
  }

  lemma Before(c: Crypto, s: System, a: Action, rest: seq<Action>)
    requires Enabled(c, s, a) && IsRun(c, Apply(c, s, a), rest)
    ensures IsRun(c, s, [a] + rest) && After(c, s, [a] + rest) == After(c, Apply(c, s, a), rest)
  {
    assert ([a] + rest)[1..] == rest;
  }

  lemma First(c: Crypto, s: System, a: Action, rest: seq<Action>, id: nat, r: Request)
    requires Enabled(c, s, a) && !a.Rotate? && Reaches(c, Apply(c, s, a), rest, id, r)
    ensures Reaches(c, s, [a] + rest, id, r)
  {
    Before(c, s, a, rest);
  }

  lemma FromSettling(c: Crypto, s: System, id: nat) returns (run: seq<Action>)
    requires At(s, id) && s.runs[id].pc.Settling?
    ensures Reaches(c, s, run, id, s.runs[id].request)
  {
    var r := s.runs[id].request;
    var m := Apply(c, s, Settle(id, true));
    if m.runs[id].pc.Done? {
      First(c, s, Settle(id, true), [], id, r);
      run := [Settle(id, true)] + [];
    } else {
      First(c, m, Rename(id), [], id, r);
      First(c, s, Settle(id, true), [Rename(id)] + [], id, r);
      run := [Settle(id, true)] + ([Rename(id)] + []);
    }
  }

  lemma FromWaiting(c: Crypto, s: System, id: nat) returns (run: seq<Action>)
    requires At(s, id) && s.runs[id].pc.Waiting? && s.runs[id].pc.journal.payload in s.net.pool
    requires s.runs[id].pc.journal.payload.txv == s.net.ctx && s.net.executed == {}
    ensures Reaches(c, s, run, id, s.runs[id].request)
  {
    var r := s.runs[id].request;
    var p := s.runs[id].pc.journal.payload;
    var s1 := Apply(c, s, Execute(p));
    assert p in s1.net.executed;
    var s2 := Apply(c, s1, Sign(p.tx));
    var rest := FromSettling(c, Apply(c, s2, Poll(id, 0)), id);
    First(c, s2, Poll(id, 0), rest, id, r);
    rest := [Poll(id, 0)] + rest;
    First(c, s1, Sign(p.tx), rest, id, r);
    rest := [Sign(p.tx)] + rest;
    First(c, s, Execute(p), rest, id, r);
    run := [Execute(p)] + rest;
  }

  predicate ReadyToCheck(c: Crypto, s: System, id: nat) {
    && At(s, id) && s.runs[id].pc.Checking?
    && var j := s.runs[id].pc.journal; ValidPayload(c, j.payload, s.runs[id].request, Some(j.txHash))
  }

  /** Not executed yet: the payload is broadcast in its own context. */
  lemma FromUnsent(c: Crypto, s: System, id: nat) returns (run: seq<Action>)
    requires ReadyToCheck(c, s, id) && s.runs[id].pc.journal.payload.txv == s.net.ctx && s.net.executed == {}
    ensures Reaches(c, s, run, id, s.runs[id].request)
  {
    var r := s.runs[id].request;
    var s1 := Apply(c, s, Check(id, false, 0));
    var rest := FromWaiting(c, Apply(c, s1, Broadcast(id, true, true)), id);
    First(c, s1, Broadcast(id, true, true), rest, id, r);
    rest := [Broadcast(id, true, true)] + rest;
    First(c, s, Check(id, false, 0), rest, id, r);
    run := [Check(id, false, 0)] + rest;
  }

  /** Executed already: signed state comes to show it, whatever the context. */
  lemma FromExecuted(c: Crypto, s: System, id: nat) returns (run: seq<Action>)
    requires ReadyToCheck(c, s, id) && s.runs[id].pc.journal.payload in s.net.executed
    ensures Reaches(c, s, run, id, s.runs[id].request)
  {
    var r := s.runs[id].request;
    var tx := s.runs[id].pc.journal.payload.tx;
    var s1 := Apply(c, s, Sign(tx));
    var rest := FromSettling(c, Apply(c, s1, Check(id, true, 0)), id);
    First(c, s1, Check(id, true, 0), rest, id, r);
    rest := [Check(id, true, 0)] + rest;
    First(c, s, Sign(tx), rest, id, r);
    run := [Sign(tx)] + rest;
  }

  lemma FromChecking(c: Crypto, s: System, id: nat) returns (run: seq<Action>)
    requires ReadyToCheck(c, s, id)
    requires forall p :: p in s.net.executed ==> p == s.runs[id].pc.journal.payload
    requires s.runs[id].pc.journal.payload.txv == s.net.ctx || s.net.executed != {}
    ensures Reaches(c, s, run, id, s.runs[id].request)
  {
    if s.net.executed == {} {
      run := FromUnsent(c, s, id);
    } else {
      var p :| p in s.net.executed;
      run := FromExecuted(c, s, id);
    }
  }

  lemma FromStored(c: Crypto, s: System, id: nat, r: Request) returns (run: seq<Action>)
    requires Inv(s) && id !in s.runs && s.file.Stored? && Answers(c, s.file.journal, r)
    requires s.file.journal.payload.txv == s.net.ctx || s.net.executed != {}
    ensures Reaches(c, s, run, id, r)
  {
    var s1 := Apply(c, s, Launch(id, r));
    var s2 := Apply(c, s1, Look(id));
    var rest := FromChecking(c, Apply(c, s2, Read(id)), id);
    First(c, s2, Read(id), rest, id, r);
    rest := [Read(id)] + rest;
    First(c, s1, Look(id), rest, id, r);
    rest := [Look(id)] + rest;
    First(c, s, Launch(id, r), rest, id, r);
    run := [Launch(id, r)] + rest;
  }

  lemma FromAbsent(c: Crypto, s: System, id: nat, r: Request, p: Payload) returns (run: seq<Action>)
    requires Inv(s) && id !in s.runs && s.file.Absent? && ValidPayload(c, p, r, None) && p.txv == s.net.ctx
    ensures Reaches(c, s, run, id, r)
  {
    var before := if r.expectedBefore.Some? then r.expectedBefore.value else "";
    var s1 := Apply(c, s, Launch(id, r));
    var s2 := Apply(c, s1, Look(id));
    var s3 := Apply(c, s2, Prepare(id, p, before));
    var s4 := Apply(c, s3, Create(id));
    assert s.net.executed == {};
    var rest := FromChecking(c, Apply(c, s4, Fill(id, true)), id);
    First(c, s4, Fill(id, true), rest, id, r);
    rest := [Fill(id, true)] + rest;
    First(c, s3, Create(id), rest, id, r);
    rest := [Create(id)] + rest;
    First(c, s2, Prepare(id, p, before), rest, id, r);
    rest := [Prepare(id, p, before)] + rest;
    First(c, s1, Look(id), rest, id, r);
    rest := [Look(id)] + rest;
    First(c, s, Launch(id, r), rest, id, r);
    run := [Launch(id, r)] + rest;
  }

  lemma FromFilling(c: Crypto, s: System, id: nat, r: Request, k: nat) returns (run: seq<Action>)
    requires Inv(s) && id !in s.runs && Fills(s, k) && Answers(c, s.runs[k].pc.journal, r)
    requires s.runs[k].pc.journal.payload.txv == s.net.ctx
    ensures Reaches(c, s, run, id, r)
  {
    StepPreserves(c, s, Fill(k, true));
    var rest := FromStored(c, Apply(c, s, Fill(k, true)), id, r);
    First(c, s, Fill(k, true), rest, id, r);
    run := [Fill(k, true)] + rest;
  }

  lemma SucceedsHere(c: Crypto, s: System, id: nat, r: Request) returns (run: seq<Action>)
    requires Inv(s) && id !in s.runs && RecoverableHere(c, s, r)
    ensures Reaches(c, s, run, id, r)
  {
    match s.file
    case Absent =>
      var p :| ValidPayload(c, p, r, None) && p.txv == s.net.ctx;
      run := FromAbsent(c, s, id, r, p);
    case Stored(_) =>
      run := FromStored(c, s, id, r);
    case Torn =>
      var k :| Fills(s, k) && Answers(c, s.runs[k].pc.journal, r) && s.runs[k].pc.journal.payload.txv == s.net.ctx;
      run := FromFilling(c, s, id, r, k);
  }

  /** The context in which a recoverable settlement can be completed. */
  lemma ContextFor(c: Crypto, s: System, r: Request) returns (ctx: nat)
    requires Recoverable(c, s, r)
    ensures RecoverableHere(c, s.(net := s.net.(ctx := ctx)), r)
  {
    match s.file
    case Absent =>
      var p :| ValidPayload(c, p, r, None);
      ctx := p.txv;
    case Stored(j) =>
      ctx := j.payload.txv;
    case Torn =>
      var k :| Fills(s, k) && Answers(c, s.runs[k].pc.journal, r);
      ctx := s.runs[k].pc.journal.payload.txv;
      assert Fills(s.(net := s.net.(ctx := ctx)), k);
  }

  lemma SucceedsAfterRotation(c: Crypto, s: System, id: nat, r: Request)
    requires Inv(s) && id !in s.runs && Recoverable(c, s, r)
    ensures CanSucceed(c, s, id, r, Anything)
  {
    var ctx := ContextFor(c, s, r);
    if ctx == s.net.ctx {
      assert s.(net := s.net.(ctx := ctx)) == s;
      var run := SucceedsHere(c, s, id, r);
    } else {
      StepPreserves(c, s, Rotate(ctx));
      var rest := SucceedsHere(c, Apply(c, s, Rotate(ctx)), id, r);
      Before(c, s, Rotate(ctx), rest);
      assert Respects([Rotate(ctx)] + rest, Anything);
    }
  }

  // ---- no continuation succeeds ----

  predicate PastCheck(pc: Pc) { pc.Broadcasting? || pc.Waiting? || pc.Settling? || pc.Renaming? }

  /** The file holds the order `j`, or can come to hold no other. */
  ghost predicate Destined(s: System, j: Journal) {
    || (s.file.Stored? && SameOrder(s.file.journal, j))
    || (s.file.Torn? && forall k :: Fills(s, k) ==> s.runs[k].pc.journal == j)
  }

  /** How far a run launched after the file existed can have come. */
  predicate Follows(c: Crypto, x: Run, j: Journal) {
    && !x.pc.Preparing? && !x.pc.Creating? && !x.pc.Filling? && !x.pc.Collided?
    && (Holds(x.pc) && x.request.expectedBefore.Some? ==> j.beforeBalance == x.request.expectedBefore.value)
    && (PastCheck(x.pc) ==> ValidPayload(c, x.pc.journal.payload, x.request, Some(x.pc.journal.txHash)))
    && (x.pc.Done? ==> Answers(c, j, x.request))
  }

  ghost predicate OnCourse(c: Crypto, s: System, id: nat, j: Journal) {
    Inv(s) && Destined(s, j) && (id in s.runs ==> Follows(c, s.runs[id], j))
  }

  lemma DestinyHolds(c: Crypto, s: System, a: Action, j: Journal)
    requires Inv(s) && Enabled(c, s, a) && Destined(s, j)
    ensures Destined(Apply(c, s, a), j)
  {
    if a.Fill? || a.Rename? { assert RunOk(s.file, s.net, s.runs[a.id]); }
    if a.Fill? { assert Fills(s, a.id); }
    var e := Apply(c, s, a);
    forall k | Fills(e, k) && s.file.Torn? ensures Fills(s, k) && e.runs[k].pc.journal == s.runs[k].pc.journal { }
  }

  /** The step of the watched run itself. */
  lemma OwnStepFollows(c: Crypto, s: System, a: Action, id: nat, j: Journal)
    requires OnCourse(c, s, id, j) && Enabled(c, s, a) && id in s.runs && id in Apply(c, s, a).runs
    requires Apply(c, s, a).runs[id] != s.runs[id]
    ensures Follows(c, Apply(c, s, a).runs[id], j)
  {
    assert RunOk(s.file, s.net, s.runs[id]);
  }

  lemma StepStaysOnCourse(c: Crypto, s: System, a: Action, id: nat, j: Journal)
    requires OnCourse(c, s, id, j) && Enabled(c, s, a)
    ensures OnCourse(c, Apply(c, s, a), id, j)
  {
    StepPreserves(c, s, a);
    DestinyHolds(c, s, a, j);
    var e := Apply(c, s, a);
    if id in s.runs && id in e.runs && e.runs[id] != s.runs[id] { OwnStepFollows(c, s, a, id, j); }
  }

  lemma {:induction false} RunStaysOnCourse(c: Crypto, s: System, run: seq<Action>, id: nat, j: Journal)
    requires OnCourse(c, s, id, j) && IsRun(c, s, run)
    ensures OnCourse(c, After(c, s, run), id, j)
    decreases |run|
  {
    if run != [] {
      StepStaysOnCourse(c, s, run[0], id, j);
      RunStaysOnCourse(c, Apply(c, s, run[0]), run[1..], id, j);
    }
  }

  /** The journalled transfer has not executed, and the network is in another context than it names. */
  ghost predicate Overtaken(s: System, j: Journal) {
    Inv(s) && Destined(s, j) && s.net.ctx != j.payload.txv && s.net.executed == {}
  }

  lemma StepStaysOvertaken(c: Crypto, s: System, a: Action, j: Journal)
    requires Overtaken(s, j) && Enabled(c, s, a) && a != Rotate(j.payload.txv)
    ensures Overtaken(Apply(c, s, a), j)
  {
    StepPreserves(c, s, a);
    DestinyHolds(c, s, a, j);
  }

  /**
   A journal overtaken by a change of context is stuck: whatever runs are launched, until the network returns to the
   context the transfer names nothing executes and no run succeeds.
   */
  lemma {:induction false} OvertakenJournalIsStuck(c: Crypto, s: System, run: seq<Action>, j: Journal)
    requires Overtaken(s, j) && IsRun(c, s, run) && Respects(run, NeverTo(j.payload.txv))
    ensures var e := After(c, s, run);
            Overtaken(e, j) && e.net.executed == {} && forall id :: id in e.runs ==> !e.runs[id].pc.Done?
    decreases |run|
  {
    if run == [] {
      forall id | id in s.runs ensures !s.runs[id].pc.Done? { assert RunOk(s.file, s.net, s.runs[id]); }
    } else {
      StepStaysOvertaken(c, s, run[0], j);
      assert Respects(run[1..], NeverTo(j.payload.txv)) by {
        forall i | 0 <= i < |run| - 1 ensures run[1..][i] != Rotate(j.payload.txv) { assert run[1..][i] == run[i + 1]; }
      }
      OvertakenJournalIsStuck(c, Apply(c, s, run[0]), run[1..], j);
    }
  }

  /** The first run of an empty system, up to the journal it fills in. */
  lemma FillsJournal(c: Crypto, s: System, id: nat, r: Request, p: Payload) returns (run: seq<Action>)
    requires Init(s) && ValidPayload(c, p, r, None)
    ensures IsRun(c, s, run)
    ensures var e := After(c, s, run);
            && e.file.Stored? && Answers(c, e.file.journal, r) && e.file.journal.payload == p && e.net == s.net
            && e.runs.Keys == {id} && e.runs[id].pc.Checking?
  {
    var before := if r.expectedBefore.Some? then r.expectedBefore.value else "";
    var s1 := Apply(c, s, Launch(id, r));
    var s2 := Apply(c, s1, Look(id));
    var s3 := Apply(c, s2, Prepare(id, p, before));
    var s4 := Apply(c, s3, Create(id));
    run := [];
    Before(c, s4, Fill(id, true), run);
    run := [Fill(id, true)] + run;
    Before(c, s3, Create(id), run);
    run := [Create(id)] + run;
    Before(c, s2, Prepare(id, p, before), run);
    run := [Prepare(id, p, before)] + run;
    Before(c, s1, Look(id), run);
    run := [Look(id)] + run;
    Before(c, s, Launch(id, r), run);
    run := [Launch(id, r)] + run;
  }

  /**
   How a journal gets there: filled in one context, the process gone before it broadcasts, the network in another
   context. The journal answers its request all the while.
   */
  lemma CrashBeforeBroadcastIsOvertaken(c: Crypto, s: System, id: nat, r: Request, p: Payload, later: nat)
    returns (run: seq<Action>)
    requires Init(s) && ValidPayload(c, p, r, None) && p.txv == s.net.ctx != later
    ensures IsRun(c, s, run)
    ensures var e := After(c, s, run);
            && e.file.Stored? && Answers(c, e.file.journal, r) && e.file.journal.payload == p
            && Overtaken(e, e.file.journal) && e.runs == map[]
  {
    run := FillsJournal(c, s, id, r, p);
    var s1 := After(c, s, run);
    var s2 := Apply(c, s1, Crash(id));
    Before(c, s2, Rotate(later), []);
    Before(c, s1, Crash(id), [Rotate(later)] + []);
    Concat(c, s, run, [Crash(id)] + ([Rotate(later)] + []));
    run := run + ([Crash(id)] + ([Rotate(later)] + []));
    RunPreserves(c, s, run);
  }

  lemma {:induction false} Concat(c: Crypto, s: System, run: seq<Action>, more: seq<Action>)
    requires IsRun(c, s, run) && IsRun(c, After(c, s, run), more)
    ensures IsRun(c, s, run + more) && After(c, s, run + more) == After(c, After(c, s, run), more)
    decreases |run|
  {
    if run == [] {
      assert run + more == more;
    } else {
      Concat(c, Apply(c, s, run[0]), run[1..], more);
      assert (run + more)[1..] == run[1..] + more;
    }
  }

  // ---- starting without a journal ----

  /** What a run has checked is genuine, and what it reports is the journalled transfer. */
  ghost predicate Genuine(c: Crypto, s: System, id: nat) {
    id in s.runs ==>
      var x := s.runs[id];
      && (PastCheck(x.pc) ==> ValidPayload(c, x.pc.journal.payload, x.request, None))
      && (x.pc.Done? ==> s.file.Stored? && ValidPayload(c, s.file.journal.payload, x.request, None))
  }

  lemma OwnStepIsGenuine(c: Crypto, s: System, a: Action, id: nat)
    requires Inv(s) && Genuine(c, s, id) && Enabled(c, s, a) && id in s.runs && id in Apply(c, s, a).runs
    requires Apply(c, s, a).runs[id] != s.runs[id]
    ensures Genuine(c, Apply(c, s, a), id)
  {
    assert RunOk(s.file, s.net, s.runs[id]);
  }

  lemma StepStaysGenuine(c: Crypto, s: System, a: Action, id: nat)
    requires Inv(s) && Genuine(c, s, id) && Enabled(c, s, a)
    ensures Genuine(c, Apply(c, s, a), id)
  {
    var e := Apply(c, s, a);
    if id in s.runs && id in e.runs {
      if e.runs[id] != s.runs[id] {
        OwnStepIsGenuine(c, s, a, id);
      } else if s.runs[id].pc.Done? {
        DestinyHolds(c, s, a, s.file.journal);
      }
    }
  }

  lemma {:induction false} RunStaysGenuine(c: Crypto, s: System, run: seq<Action>, id: nat)
    requires Inv(s) && Genuine(c, s, id) && IsRun(c, s, run)
    ensures Genuine(c, After(c, s, run), id)
    decreases |run|
  {
    if run != [] {
      StepPreserves(c, s, run[0]);
      StepStaysGenuine(c, s, run[0], id);
      RunStaysGenuine(c, Apply(c, s, run[0]), run[1..], id);
    }
  }

  /** In a context that stays, only transfers that name it execute. */
  lemma {:induction false} StayingExecutesItsOwn(c: Crypto, s: System, run: seq<Action>)
    requires IsRun(c, s, run) && Respects(run, Staying) && forall p :: p in s.net.executed ==> p.txv == s.net.ctx
    ensures var e := After(c, s, run); e.net.ctx == s.net.ctx && forall p :: p in e.net.executed ==> p.txv == s.net.ctx
    decreases |run|
  {
    if run != [] {
      assert Respects(run[1..], Staying) by {
        forall i | 0 <= i < |run| - 1 ensures !run[1..][i].Rotate? { assert run[1..][i] == run[i + 1]; }
      }
      StayingExecutesItsOwn(c, Apply(c, s, run[0]), run[1..]);
    }
  }

  lemma AbsentSuccess(c: Crypto, s: System, id: nat, r: Request, run: seq<Action>)
    requires Inv(s) && id !in s.runs && s.file.Absent? && IsRun(c, s, run) && Succeeded(After(c, s, run), id, r)
    ensures Payable(c, r) && (Respects(run, Staying) ==> PayableIn(c, r, s.net.ctx))
  {
    RunStaysGenuine(c, s, run, id);
    RunPreserves(c, s, run);
    var e := After(c, s, run);
    assert RunOk(e.file, e.net, e.runs[id]);
    var p :| p in e.net.executed && p.tx == e.runs[id].pc.tx;
    assert p == e.file.journal.payload;
    assert ValidPayload(c, p, r, None);
    if Respects(run, Staying) { StayingExecutesItsOwn(c, s, run); }
  }

  // ---- the exact conditions ----

  /** The order the file is destined for; when nobody fills a torn file, one that answers nothing. */
  ghost function Destiny(s: System): Journal {
    if s.file.Stored? then s.file.journal
    else if k :| Fills(s, k) then s.runs[k].pc.journal
    else Journal(0, "", "", "", "", 0, "", 0, Prepared, Payload("", "", 0, 0, 0, 0, 0), None)
  }

  lemma SuccessWasRecoverable(c: Crypto, s: System, id: nat, r: Request, run: seq<Action>)
    requires Inv(s) && id !in s.runs && IsRun(c, s, run) && Succeeded(After(c, s, run), id, r)
    ensures Recoverable(c, s, r)
  {
    if s.file.Absent? {
      AbsentSuccess(c, s, id, r, run);
    } else {
      RunStaysOnCourse(c, s, run, id, Destiny(s));
    }
  }

  /** Success without returning to the journalled context means it was not needed. */
  lemma SuccessWasHere(c: Crypto, s: System, id: nat, r: Request, run: seq<Action>)
    requires Inv(s) && id !in s.runs && IsRun(c, s, run) && Succeeded(After(c, s, run), id, r)
    requires Respects(run, Staying) || (!s.file.Absent? && Respects(run, NeverTo(Destiny(s).payload.txv)))
    ensures RecoverableHere(c, s, r)
  {
    SuccessWasRecoverable(c, s, id, r, run);
    var j := Destiny(s);
    if s.file.Absent? {
      AbsentSuccess(c, s, id, r, run);
    } else if s.net.ctx != j.payload.txv && s.net.executed == {} {
      assert Respects(run, NeverTo(j.payload.txv));
      OvertakenJournalIsStuck(c, s, run, j);
    } else if s.file.Torn? {
      var k :| Fills(s, k) && Answers(c, s.runs[k].pc.journal, r);
      assert s.runs[k].pc.journal == j && s.net.executed == {};
    }
  }

  /**
   From every state runs leave behind, a fresh run can succeed exactly if the journal file lets it; and it can do so
   with the context staying as it is, or going anywhere but back to the one the journalled transfer names, exactly
   if the transfer has executed or that context is the present one.
   */
  lemma RecoverableIff(c: Crypto, s: System, id: nat, r: Request)
    requires Inv(s) && id !in s.runs
    ensures CanSucceed(c, s, id, r, Anything) <==> Recoverable(c, s, r)
    ensures CanSucceed(c, s, id, r, Staying) <==> RecoverableHere(c, s, r)
    ensures !s.file.Absent? ==> (CanSucceed(c, s, id, r, NeverTo(Destiny(s).payload.txv)) <==> RecoverableHere(c, s, r))
  {
    if Recoverable(c, s, r) { SucceedsAfterRotation(c, s, id, r); }
    if RecoverableHere(c, s, r) {
      var run := SucceedsHere(c, s, id, r);
      assert Respects(run, NeverTo(Destiny(s).payload.txv));
    }
    forall run | IsRun(c, s, run) && Succeeded(After(c, s, run), id, r) ensures Recoverable(c, s, r) {
      SuccessWasRecoverable(c, s, id, r, run);
    }
    forall run | IsRun(c, s, run) && Succeeded(After(c, s, run), id, r)
      && (Respects(run, Staying) || (!s.file.Absent? && Respects(run, NeverTo(Destiny(s).payload.txv))))
      ensures RecoverableHere(c, s, r)
    {
      SuccessWasHere(c, s, id, r, run);
    }
  }
}
