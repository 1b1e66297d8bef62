/** What the checkpoint invariants say about every run, and the run that needs them. */
module CheckpointTheorems {
  import opened Wrappers
  import opened CheckpointProtocol
  import opened CheckpointSafety

  // ---- one payment per slot ----

  /**
   In every run with crashes, restarts and failed writes at any point, over a network that
   does not return to the context of a superseded attempt, one handed out and then retired for
   another: every transaction ever handed to a validator is on record, every retired attempt of the open slot
   carries evidence naming it, and at most one transaction per slot executes.
   */
  lemma EveryRunPaysAtMostOnce(cfg: Config, s: System, run: seq<Action>)
    requires Init(s) && IsRun(cfg, s, run) && Calm(cfg, s, run)
    ensures var e := After(cfg, s, run);
            && AtMostOncePerSlot(e)
            && (forall t :: t in e.net.pool ==> e.disk.Some? && Accounted(e.disk.value, e.completed, t))
            && (e.disk.Some? && e.disk.value.active.Some? ==>
                  forall r :: r in e.disk.value.active.value.retired ==>
                    r.prepared.slot == e.disk.value.nextSlot && EvidenceMatches(r.evidence, r.prepared))
  {
    RunPreserves(cfg, s, run);
    InvPaysAtMostOnce(After(cfg, s, run));
  }

  lemma InvPaysAtMostOnce(s: System)
    requires Inv(s)
    ensures AtMostOncePerSlot(s)
  {
    forall t, u | t in s.net.executed && u in s.net.executed && t.slot == u.slot ensures t == u {
      ExecutedIsCurrent(s, t);
      ExecutedIsCurrent(s, u);
    }
  }

  /**
   Completed slots are gap-free from the first slot, each is paid by exactly one executed
   transaction, which signed state shows, and each of its retired attempts carries evidence
   naming that attempt and, unless it is that very transaction, never executed.
   */
  lemma CompletedSlotsArePaidOnce(cfg: Config, s: System, run: seq<Action>, k: int)
    requires Init(s) && IsRun(cfg, s, run) && Calm(cfg, s, run)
    ensures var e := After(cfg, s, run);
            && (e.disk.Some? ==> NoGap(e.disk.value, e.completed))
            && (k in e.completed ==>
                  && e.completed[k].prepared in e.net.confirmed
                  && e.completed[k].prepared in e.net.executed
                  && (forall t :: t in e.net.executed && t.slot == k ==> t == e.completed[k].prepared)
                  && (forall r :: r in e.completed[k].retired ==>
                        && r.prepared.slot == k && EvidenceMatches(r.evidence, r.prepared)
                        && (r.prepared != e.completed[k].prepared ==> r.prepared !in e.net.executed)))
  {
    RunPreserves(cfg, s, run);
    EveryRunPaysAtMostOnce(cfg, s, run);
    var e := After(cfg, s, run);
    if k in e.completed {
      forall r | r in e.completed[k].retired ensures r.prepared.slot == k && EvidenceMatches(r.evidence, r.prepared) {
        assert RetiredOk(e.net, k, Some(e.completed[k].prepared), r);
      }
    }
  }

  // ---- the journal reloads ----

  predicate Shaped(j: Journal) {
    && j.startSlot <= j.nextSlot <= j.dueThrough + 1
    && (j.dueThrough <= j.startSlot - 1 || j.dueThrough <= MAX_TIME_MS / CHECKPOINT_MS)
    && (j.active.Some? ==>
          j.active.value.slot == j.nextSlot && (j.active.value.phase != Due ==> j.active.value.prepared.Some?))
  }

  /** The suspended code works on the active attempt in memory, for a slot that is due. */
  predicate OnTheActive(p: Proc) {
    InFlight(p.pc) ==>
      && p.mem.active == Some(p.pc.active) && p.mem.nextSlot <= p.mem.dueThrough
      && (p.pc.AwaitFunding? || p.pc.AwaitPayment? || p.pc.active.prepared.Some?)
  }

  predicate AllShaped(s: System) {
    && (s.disk.Some? ==> Shaped(s.disk.value))
    && (s.proc.Some? ==> Shaped(s.proc.value.mem) && OnTheActive(s.proc.value))
  }

  lemma SaveShaped(s: System, p: Proc, j: Journal, o: Outcome, next: Pc)
    requires AllShaped(s) && Shaped(p.mem) && Shaped(j) && OnTheActive(p.(mem := j, pc := next))
    ensures AllShaped(Save(s, p, j, o, next))
  {}

  lemma EarlyStepsShaped(cfg: Config, s: System, a: Action)
    requires AllShaped(s) && Enabled(cfg, s, a) && (a.Start? || a.Schedule? || a.Begin? || a.Funded? || a.Paid?)
    ensures AllShaped(Apply(cfg, s, a))
  {}

  lemma LateStepsShaped(cfg: Config, s: System, a: Action)
    requires AllShaped(s) && Enabled(cfg, s, a) && (a.Inspected? || a.Reconciled? || a.Advance? || a.Replaced? || a.Sent?)
    ensures AllShaped(Apply(cfg, s, a))
  {}

  lemma RefundedShaped(cfg: Config, s: System, p: Proc, balance: int, fee: int, monotonic: int, o: Outcome)
    requires AllShaped(s) && s.proc == Some(p) && p.pc.AwaitRefunding?
    ensures AllShaped(ApplyRefunded(cfg, s, p, balance, fee, monotonic, o))
  {
    var a := p.pc.active.(phase := BroadcastOrUncertain, attempts := p.pc.active.attempts + 1);
    SaveShaped(s, p, p.mem, o, Idle);
    SaveShaped(s, p.(nextBroadcastAt := monotonic + cfg.spacing), p.mem.(active := Some(a)), o, AwaitBroadcast(a));
  }

  lemma StepShaped(cfg: Config, s: System, a: Action)
    requires AllShaped(s) && Enabled(cfg, s, a)
    ensures AllShaped(Apply(cfg, s, a))
  {
    if a.Start? || a.Schedule? || a.Begin? || a.Funded? || a.Paid? {
      EarlyStepsShaped(cfg, s, a);
    } else if a.Inspected? || a.Reconciled? || a.Advance? || a.Replaced? || a.Sent? {
      LateStepsShaped(cfg, s, a);
    } else if a.Refunded? {
      RefundedShaped(cfg, s, s.proc.value, a.balance, a.fee, a.monotonic, a.outcome);
    }
  }

  lemma {:induction false} RunShaped(cfg: Config, s: System, run: seq<Action>)
    requires AllShaped(s) && IsRun(cfg, s, run)
    ensures AllShaped(After(cfg, s, run))
    decreases |run|
  {
    if run != [] {
      StepShaped(cfg, s, run[0]);
      RunShaped(cfg, Apply(cfg, s, run[0]), run[1..]);
    }
  }

  /**
   Every state file a run leaves behind passes its own reload check exactly when the slot
   it was opened at is a positive safe integer; a clock in its first thirty seconds with no
   canonical checkpoint opens it at slot 0, and the worker then refuses to restart.
   */
  lemma JournalReloadsIffOpenedAtPositiveSlot(cfg: Config, s: System, run: seq<Action>)
    requires Init(s) && IsRun(cfg, s, run)
    ensures var e := After(cfg, s, run);
            e.disk.Some? ==>
              (ReloadValid(e.disk.value) <==> 1 <= e.disk.value.startSlot <= MAX_SAFE_INTEGER)
  {
    RunShaped(cfg, s, run);
  }

  lemma EarlyClockOpensAnUnreloadableJournal(cfg: Config, s: System, now: nat)
    requires Init(s) && now <= MAX_TIME_MS
    ensures var e := Apply(cfg, s, Start(0, None, None, now, Durable));
            ReloadValid(e.disk.value) <==> CHECKPOINT_MS <= now
  {
    assert now < CHECKPOINT_MS ==> now / CHECKPOINT_MS == 0;
    assert CHECKPOINT_MS <= now ==> 1 <= now / CHECKPOINT_MS;
  }

  // ---- scheduled slots are never lost ----

  predicate Scheduled(s: System, due: int) {
    && s.disk.Some? && due <= s.disk.value.dueThrough
    && (s.proc.Some? ==> due <= s.proc.value.mem.dueThrough)
  }

  lemma StepKeepsScheduled(cfg: Config, s: System, a: Action, due: int)
    requires Scheduled(s, due) && Enabled(cfg, s, a)
    ensures Scheduled(Apply(cfg, s, a), due)
  {}

  lemma {:induction false} RunKeepsScheduled(cfg: Config, s: System, run: seq<Action>, due: int)
    requires Scheduled(s, due) && IsRun(cfg, s, run)
    ensures Scheduled(After(cfg, s, run), due)
    decreases |run|
  {
    if run != [] {
      StepKeepsScheduled(cfg, s, run[0], due);
      RunKeepsScheduled(cfg, Apply(cfg, s, run[0]), run[1..], due);
    }
  }

  predicate DiskKnowsDue(s: System) {
    s.proc.Some? ==> s.disk.Some? && s.proc.value.mem.dueThrough <= s.disk.value.dueThrough
  }

  lemma {:induction false} RunDiskKnowsDue(cfg: Config, s: System, run: seq<Action>)
    requires DiskKnowsDue(s) && IsRun(cfg, s, run)
    ensures DiskKnowsDue(After(cfg, s, run))
    decreases |run|
  {
    if run != [] {
      RunDiskKnowsDue(cfg, Apply(cfg, s, run[0]), run[1..]);
    }
  }

  /**
   A slot the scheduler has durably recorded, at whatever await the payment code is
   suspended, stays recorded on disk and in memory through every later step, crash and restart.
   */
  lemma SchedulerWritesAreNeverLost(cfg: Config, s: System, before: seq<Action>, now: nat,
                                    later: seq<Action>)
    requires Init(s) && IsRun(cfg, s, before)
    requires Enabled(cfg, After(cfg, s, before), Schedule(now, Durable))
    requires IsRun(cfg, Apply(cfg, After(cfg, s, before), Schedule(now, Durable)), later)
    ensures var m := Apply(cfg, After(cfg, s, before), Schedule(now, Durable));
            Scheduled(After(cfg, m, later), now / CHECKPOINT_MS)
  {
    RunDiskKnowsDue(cfg, s, before);
    var m := Apply(cfg, After(cfg, s, before), Schedule(now, Durable));
    RunKeepsScheduled(cfg, m, later, now / CHECKPOINT_MS);
  }

  // ---- what a network that goes back can do ----

  lemma {:induction false} RunNetOk(cfg: Config, s: System, run: seq<Action>)
    requires s.net.executed.Keys <= s.net.pool.Keys && IsRun(cfg, s, run)
    ensures After(cfg, s, run).net.executed.Keys <= After(cfg, s, run).net.pool.Keys
    decreases |run|
  {
    if run != [] { RunNetOk(cfg, Apply(cfg, s, run[0]), run[1..]); }
  }

  /** Bring the network to the context of `t`, if it is not there, and execute `t`, if it has not. */
  function ExecuteAt(s: System, t: Tx): seq<Action> {
    if t in s.net.executed then []
    else if s.net.ctx == t.txv then [Execute(t, 0)]
    else [Rotate(t.txv), Execute(t, 0)]
  }

  lemma ExecutesIt(cfg: Config, s: System, t: Tx)
    requires t in s.net.pool
    ensures IsRun(cfg, s, ExecuteAt(s, t)) && IsNetworkRun(ExecuteAt(s, t))
    ensures var e := After(cfg, s, ExecuteAt(s, t));
            t in e.net.executed && e.net.pool == s.net.pool && s.net.executed.Keys <= e.net.executed.Keys
  {
    var run := ExecuteAt(s, t);
    if run != [] {
      Extend(cfg, s, [], run[0]);
      assert [] + [run[0]] == [run[0]];
      if |run| == 2 {
        Extend(cfg, s, [run[0]], run[1]);
        assert [run[0]] + [run[1]] == run;
      }
    }
  }

  /** A run of the network alone: the worker, its files and its memory do not move. */
  predicate IsNetworkRun(run: seq<Action>) {
    forall i :: 0 <= i < |run| ==> run[i].Rotate? || run[i].Execute? || run[i].Confirm? || run[i].Deposit?
  }

  /**
   From any state at all in which an attempt `t` was handed out and another transaction has paid
   for its slot, going back to the context of `t` pays that slot a second time.
   */
  lemma GoingBackPaysAgain(cfg: Config, s: System, t: Tx, u: Tx)
    requires t in s.net.pool && u in s.net.executed && t != u && t.slot == u.slot
    ensures IsRun(cfg, s, ExecuteAt(s, t)) && !AtMostOncePerSlot(After(cfg, s, ExecuteAt(s, t)))
  {
    ExecutesIt(cfg, s, t);
    var e := After(cfg, s, ExecuteAt(s, t));
    assert t in e.net.executed && u in e.net.executed.Keys;
  }

  ghost predicate HandedOutTwice(s: System) {
    exists t, u :: t in s.net.pool && u in s.net.pool && t != u && t.slot == u.slot
  }

  lemma {:induction false} NetworkKeepsPool(cfg: Config, s: System, run: seq<Action>)
    requires IsRun(cfg, s, run) && IsNetworkRun(run)
    ensures After(cfg, s, run).net.pool == s.net.pool
    decreases |run|
  {
    if run != [] {
      assert IsNetworkRun(run[1..]) by {
        forall i | 0 <= i < |run| - 1 ensures run[1..][i] == run[i + 1] { }
      }
      NetworkKeepsPool(cfg, Apply(cfg, s, run[0]), run[1..]);
    }
  }

  /**
   In whatever state a run leaves behind, the network can pay some slot twice by its own moves alone
   exactly if two attempts at one slot have been handed out.
   */
  lemma NetworkPaysTwiceIff(cfg: Config, s: System, before: seq<Action>)
    requires Init(s) && IsRun(cfg, s, before)
    ensures var m := After(cfg, s, before);
            (exists run :: IsRun(cfg, m, run) && IsNetworkRun(run) && !AtMostOncePerSlot(After(cfg, m, run))) <==> HandedOutTwice(m)
  {
    RunNetOk(cfg, s, before);
    var m := After(cfg, s, before);
    if HandedOutTwice(m) {
      var t, u :| t in m.net.pool && u in m.net.pool && t != u && t.slot == u.slot;
      var run := BothExecute(cfg, m, t, u);
    }
    forall run | IsRun(cfg, m, run) && IsNetworkRun(run) && !AtMostOncePerSlot(After(cfg, m, run)) ensures HandedOutTwice(m) {
      NetworkKeepsPool(cfg, m, run);
      RunNetOk(cfg, m, run);
      var e := After(cfg, m, run);
      var t, u :| t in e.net.executed && u in e.net.executed && t.slot == u.slot && t != u;
      assert t in e.net.pool.Keys && u in e.net.pool.Keys;
    }
  }

  lemma BothExecute(cfg: Config, s: System, t: Tx, u: Tx) returns (run: seq<Action>)
    requires t in s.net.pool && u in s.net.pool && t != u && t.slot == u.slot
    ensures IsRun(cfg, s, run) && IsNetworkRun(run) && !AtMostOncePerSlot(After(cfg, s, run))
  {
    ExecutesIt(cfg, s, u);
    var m := After(cfg, s, ExecuteAt(s, u));
    ExecutesIt(cfg, m, t);
    GoingBackPaysAgain(cfg, m, t, u);
    run := ExecuteAt(s, u) + ExecuteAt(m, t);
    Concat(cfg, s, ExecuteAt(s, u), ExecuteAt(m, t));
  }

  /** Of two attempts handed out for one slot, one at least is superseded. */
  lemma SecondAttemptIsSuperseded(s: System, t: Tx, u: Tx)
    requires Inv(s) && t in s.net.pool && u in s.net.pool && t != u && t.slot == u.slot
    ensures Superseded(s, t) || Superseded(s, u)
  {
    assert Accounted(s.disk.value, s.completed, t) && Accounted(s.disk.value, s.completed, u);
  }

  ghost predicate SlotPaid(net: Net, slot: int) {
    exists u :: u in net.executed && u.slot == slot
  }

  ghost predicate PaysTwiceNext(cfg: Config, s: System, t: Tx) {
    Enabled(cfg, s, Execute(t, 0)) && !AtMostOncePerSlot(Apply(cfg, s, Execute(t, 0)))
  }

  /**
   After a calm run, a rotation lets the very next execution pay a slot twice exactly if it enters the
   context of a superseded attempt whose slot has been paid.
   */
  lemma RotationPaysTwiceIff(cfg: Config, s: System, before: seq<Action>, c: nat)
    requires Init(s) && IsRun(cfg, s, before) && Calm(cfg, s, before) && Enabled(cfg, After(cfg, s, before), Rotate(c))
    ensures var m := After(cfg, s, before);
            (exists t :: PaysTwiceNext(cfg, Apply(cfg, m, Rotate(c)), t)) <==>
            (exists t :: Superseded(m, t) && t.txv == c && SlotPaid(m.net, t.slot))
  {
    RunPreserves(cfg, s, before);
    var m := After(cfg, s, before);
    var n := Apply(cfg, m, Rotate(c));
    forall t | PaysTwiceNext(cfg, n, t)
      ensures Superseded(m, t) && t.txv == c && SlotPaid(m.net, t.slot)
    {
      TwiceMeansSuperseded(cfg, m, c, t);
    }
    forall t | Superseded(m, t) && t.txv == c && SlotPaid(m.net, t.slot)
      ensures PaysTwiceNext(cfg, n, t)
    {
      SupersededIsDead(m, t);
      var u :| u in m.net.executed && u.slot == t.slot;
      var e := Apply(cfg, n, Execute(t, 0));
      assert t in e.net.executed && u in e.net.executed && t != u;
    }
  }

  lemma SupersededIsDead(s: System, t: Tx)
    requires Inv(s) && Superseded(s, t)
    ensures Dead(s.net, t)
  {
    if s.disk.Some? && SupersededBy(s.disk.value, t) {
      RetiredForIsDead(s.net, s.disk.value.nextSlot, s.disk.value.active.value.prepared, s.disk.value.active.value.retired, t);
    } else if s.proc.Some? && SupersededBy(s.proc.value.mem, t) {
      var j := s.proc.value.mem;
      RetiredForIsDead(s.net, j.nextSlot, j.active.value.prepared, j.active.value.retired, t);
    } else if k :| k in s.completed && RetiredFor(Some(s.completed[k].prepared), s.completed[k].retired, t) {
      RetiredForIsDead(s.net, k, Some(s.completed[k].prepared), s.completed[k].retired, t);
    }
  }

  lemma RetiredForIsDead(net: Net, slot: int, prepared: Option<Tx>, rs: seq<Retired>, t: Tx)
    requires AllRetiredOk(net, slot, prepared, rs) && RetiredFor(prepared, rs, t) && t in net.pool
    ensures Dead(net, t)
  {
    var r :| r in rs && r.prepared == t;
    assert RetiredOk(net, slot, prepared, r);
  }

  lemma TwiceMeansSuperseded(cfg: Config, s: System, c: nat, t: Tx)
    requires Inv(s) && Enabled(cfg, s, Rotate(c)) && PaysTwiceNext(cfg, Apply(cfg, s, Rotate(c)), t)
    ensures Superseded(s, t) && t.txv == c && SlotPaid(s.net, t.slot)
  {
    InvPaysAtMostOnce(s);
    var e := Apply(cfg, Apply(cfg, s, Rotate(c)), Execute(t, 0));
    var x, y :| x in e.net.executed && y in e.net.executed && x.slot == y.slot && x != y;
    var u := if x == t then y else x;
    assert u in s.net.executed && u.slot == t.slot && u != t;
    OtherOfPaidSlot(s, t, u);
  }

  lemma OtherOfPaidSlot(s: System, t: Tx, u: Tx)
    requires Inv(s) && t in s.net.pool && u in s.net.executed && u != t && u.slot == t.slot
    ensures Superseded(s, t)
  {
    ExecutedIsCurrent(s, u);
    assert Accounted(s.disk.value, s.completed, t);
  }

  // ---- a run that goes back ----

  lemma {:induction false} Extend(cfg: Config, s: System, run: seq<Action>, a: Action)
    requires IsRun(cfg, s, run) && Enabled(cfg, After(cfg, s, run), a)
    ensures IsRun(cfg, s, run + [a])
    ensures After(cfg, s, run + [a]) == Apply(cfg, After(cfg, s, run), a)
    decreases |run|
  {
    if run == [] {
      assert run + [a] == [a] && [a][1..] == [];
    } else {
      Extend(cfg, Apply(cfg, s, run[0]), run[1..], a);
      assert (run + [a])[1..] == run[1..] + [a];
    }
  }

  lemma {:induction false} Concat(cfg: Config, s: System, first: seq<Action>, second: seq<Action>)
    requires IsRun(cfg, s, first) && IsRun(cfg, After(cfg, s, first), second)
    ensures IsRun(cfg, s, first + second)
    ensures After(cfg, s, first + second) == After(cfg, After(cfg, s, first), second)
    decreases |first|
  {
    if first == [] {
      assert first + second == second;
    } else {
      Concat(cfg, Apply(cfg, s, first[0]), first[1..], second);
      assert (first + second)[1..] == first[1..] + second;
    }
  }

  const FIRST: Tx := Tx(1, 1, 0)
  const SECOND: Tx := Tx(2, 1, 1)

  function Opening(cfg: Config): System {
    System(None, map[], None, Net(0, {0}, map[], map[], {}, cfg.reserve, 0, 0))
  }

  /** The journal with `a` active, after both broadcasts' bookkeeping. */
  function Paused(cfg: Config, a: Active, net: Net): System {
    var j := Journal(0, 1, 1, 1, Some(a));
    System(Some(j), map[], Some(Proc(j, Idle, false, cfg.spacing)), net)
  }

  function FirstAttempt(): Active { Active(1, BroadcastOrUncertain, Some(FIRST), 0, 1, []) }

  function SecondAttempt(): Active {
    Active(1, Prepared, Some(SECOND), 0, 0, [Retired(FIRST, 1, Evidence(UNEXECUTED, 1, 0))])
  }

  /** Slot 1 falls due, its payment is prepared in context 0 and broadcast. */
  lemma FirstBroadcast(cfg: Config) returns (run: seq<Action>)
    ensures Init(Opening(cfg)) && IsRun(cfg, Opening(cfg), run)
    ensures After(cfg, Opening(cfg), run)
         == Paused(cfg, FirstAttempt(), Opening(cfg).net.(pool := map[FIRST := 0]))
  {
    var s := Opening(cfg);
    run := [];
    Extend(cfg, s, run, Start(0, None, None, 30_000, Durable));
    run := run + [Start(0, None, None, 30_000, Durable)];
    Extend(cfg, s, run, Schedule(30_000, Durable));
    run := run + [Schedule(30_000, Durable)];
    Extend(cfg, s, run, Begin(Durable));
    run := run + [Begin(Durable)];
    Extend(cfg, s, run, Funded(cfg.reserve, 0, Durable));
    run := run + [Funded(cfg.reserve, 0, Durable)];
    Extend(cfg, s, run, Paid(FIRST, Durable));
    run := run + [Paid(FIRST, Durable)];
    Extend(cfg, s, run, Inspected(Inspection(false, false, None), Durable));
    run := run + [Inspected(Inspection(false, false, None), Durable)];
    Extend(cfg, s, run, Refunded(cfg.reserve, 0, 0, Durable));
    run := run + [Refunded(cfg.reserve, 0, 0, Durable)];
    Extend(cfg, s, run, Sent(true, true));
    run := run + [Sent(true, true)];
  }

  /** The context moves to 1, the first attempt is retired on truthful evidence and replaced. */
  lemma Replacement(cfg: Config) returns (run: seq<Action>)
    ensures Init(Opening(cfg)) && IsRun(cfg, Opening(cfg), run)
    ensures After(cfg, Opening(cfg), run)
         == Paused(cfg, SecondAttempt(), Opening(cfg).net.(ctx := 1, visited := {0, 1}, pool := map[FIRST := 0]))
  {
    var s := Opening(cfg);
    run := FirstBroadcast(cfg);
    Extend(cfg, s, run, Rotate(1));
    run := run + [Rotate(1)];
    Extend(cfg, s, run, Begin(Durable));
    run := run + [Begin(Durable)];
    var seen := Inspected(Inspection(false, true, Some(Evidence(UNEXECUTED, 1, 0))), Durable);
    Extend(cfg, s, run, seen);
    run := run + [seen];
    Extend(cfg, s, run, Replaced(SECOND, Durable));
    run := run + [Replaced(SECOND, Durable)];
    assert FirstAttempt().retired + [Retired(FIRST, 1, Evidence(UNEXECUTED, 1, 0))] == SecondAttempt().retired;
  }

  /** The replacement executes in context 1; back in context 0 the retired attempt executes too. */
  lemma RecurrencePaysTwice(cfg: Config) returns (run: seq<Action>)
    ensures Init(Opening(cfg)) && IsRun(cfg, Opening(cfg), run)
    ensures !AtMostOncePerSlot(After(cfg, Opening(cfg), run))
  {
    var s := Opening(cfg);
    run := Replacement(cfg);
    Extend(cfg, s, run, Begin(Durable));
    run := run + [Begin(Durable)];
    Extend(cfg, s, run, Inspected(Inspection(false, false, None), Durable));
    run := run + [Inspected(Inspection(false, false, None), Durable)];
    Extend(cfg, s, run, Refunded(cfg.reserve, 0, cfg.spacing, Durable));
    run := run + [Refunded(cfg.reserve, 0, cfg.spacing, Durable)];
    Extend(cfg, s, run, Sent(true, true));
    run := run + [Sent(true, true)];
    Extend(cfg, s, run, Execute(SECOND, 0));
    run := run + [Execute(SECOND, 0)];
    Extend(cfg, s, run, Rotate(0));
    run := run + [Rotate(0)];
    Extend(cfg, s, run, Execute(FIRST, 0));
    run := run + [Execute(FIRST, 0)];
    var e := After(cfg, s, run);
    assert FIRST in e.net.executed && SECOND in e.net.executed && FIRST.slot == SECOND.slot && FIRST != SECOND;
  }
}
