/**
 The reserve: when the worker is the only spender and each execution charges the fee
 recorded for it, no executed checkpoint payment takes the balance below the reserve.
 */
module CheckpointReserve {
  import opened Wrappers
  import opened CheckpointProtocol
  import opened CheckpointSafety
  import opened CheckpointTheorems

  predicate ChargesRecordedFee(s: System, a: Action) {
    a.Execute? && a.tx in s.net.pool ==> a.charge == s.net.pool[a.tx]
  }

  ghost predicate AlwaysChargesRecordedFee(cfg: Config, s: System, run: seq<Action>)
    requires IsRun(cfg, s, run)
    decreases |run|
  {
    run == [] ||
    (ChargesRecordedFee(s, run[0]) && AlwaysChargesRecordedFee(cfg, Apply(cfg, s, run[0]), run[1..]))
  }

  /** As long as nothing has paid for the slot, whatever was handed out for it is affordable. */
  ghost predicate CoveredAt(cfg: Config, net: Net, slot: int) {
    SlotPaid(net, slot) || forall t :: t in net.pool && t.slot == slot ==> net.pool[t] + cfg.reserve <= net.Balance()
  }

  /** Signed state lags by at most the one executed payment it does not show yet. */
  ghost predicate LagsByOne(net: Net) {
    && (forall t :: t in net.executed && t !in net.confirmed ==> net.spent == net.signedSpent + net.executed[t])
    && (net.executed.Keys == net.confirmed ==> net.spent == net.signedSpent)
  }

  predicate PcFunded(cfg: Config, net: Net, pc: Pc) {
    && (pc.AwaitRefunding? && pc.active.prepared.Some? && pc.active.prepared.value !in net.executed ==>
          pc.seenSpent == net.spent)
    && (pc.AwaitBroadcast? && pc.active.prepared.Some? && pc.active.prepared.value !in net.executed ==>
          pc.active.fee + cfg.reserve <= net.Balance())
  }

  ghost predicate ReserveInv(cfg: Config, s: System) {
    && (s.disk.Some? ==> CoveredAt(cfg, s.net, s.disk.value.nextSlot))
    && (s.proc.Some? ==> CoveredAt(cfg, s.net, s.proc.value.mem.nextSlot) && PcFunded(cfg, s.net, s.proc.value.pc))
    && LagsByOne(s.net)
    && (s.net.executed != map[] ==> cfg.reserve <= s.net.Balance())
  }

  /** What the network could execute now is the active attempt on disk and in memory, of a slot not yet paid. */
  lemma OnlyActiveExecutes(s: System, t: Tx, j: Journal)
    requires Inv(s) && t in s.net.pool && t !in s.net.executed && t.txv == s.net.ctx
    requires s.disk == Some(j) || (s.proc.Some? && s.proc.value.mem == j)
    ensures t.slot == j.nextSlot && j.active.Some? && j.active.value.prepared == Some(t) && !SlotPaid(s.net, t.slot)
  {
    CurrentIn(s, j, t);
    forall u | u in s.net.executed ensures u.slot != t.slot {
      if u.slot == t.slot { CurrentIn(s, j, u); }
    }
  }

  /** What has executed and is not confirmed yet is the active attempt. */
  lemma OnlyActiveIsUnconfirmed(s: System, t: Tx)
    requires Inv(s) && t in s.net.executed && t !in s.net.confirmed
    ensures s.disk.Some? && s.disk.value.active.Some? && s.disk.value.active.value.prepared == Some(t)
  {
    ExecutedIsCurrent(s, t);
  }

  lemma ActiveInFlight(s: System)
    requires Inv(s) && s.proc.Some? && InFlight(s.proc.value.pc)
    ensures s.disk.value.active == Some(s.proc.value.pc.active)
  {}

  /** When nothing executed is unconfirmed, signed state has charged all that was spent. */
  lemma NothingUnconfirmed(s: System)
    requires Inv(s) && LagsByOne(s.net)
    requires forall t :: t in s.net.executed ==> t in s.net.confirmed
    ensures s.net.spent == s.net.signedSpent
  {
    assert s.net.executed.Keys == s.net.confirmed;
  }

  lemma ExecuteKeepsReserve(cfg: Config, s: System, a: Action)
    requires Inv(s) && ReserveInv(cfg, s) && Enabled(cfg, s, a) && a.Execute? && ChargesRecordedFee(s, a)
    ensures ReserveInv(cfg, Apply(cfg, s, a))
    ensures cfg.reserve <= Apply(cfg, s, a).net.Balance()
  {
    OnlyActiveExecutes(s, a.tx, s.disk.value);
    if s.proc.Some? { OnlyActiveExecutes(s, a.tx, s.proc.value.mem); }
    forall t | t in s.net.executed ensures t in s.net.confirmed {
      if t !in s.net.confirmed { OnlyActiveIsUnconfirmed(s, t); }
    }
    NothingUnconfirmed(s);
    if s.proc.Some? && InFlight(s.proc.value.pc) { ActiveInFlight(s); }
  }

  /** Network moves that execute nothing and take nothing. */
  lemma QuietKeepsReserve(cfg: Config, s: System, n': Net)
    requires ReserveInv(cfg, s) && LagsByOne(n') && n'.pool == s.net.pool && n'.executed == s.net.executed
    requires n'.spent == s.net.spent && s.net.deposits <= n'.deposits
    ensures ReserveInv(cfg, s.(net := n'))
  {}

  lemma ConfirmKeepsReserve(cfg: Config, s: System, a: Action)
    requires Inv(s) && ReserveInv(cfg, s) && Enabled(cfg, s, a) && a.Confirm?
    ensures ReserveInv(cfg, Apply(cfg, s, a))
  {
    var n' := Apply(cfg, s, a).net;
    OnlyActiveIsUnconfirmed(s, a.tx);
    forall t | t in n'.executed ensures t in n'.confirmed {
      if t !in s.net.confirmed { OnlyActiveIsUnconfirmed(s, t); }
    }
    QuietKeepsReserve(cfg, s, n');
  }

  lemma SentKeepsReserve(cfg: Config, s: System, p: Proc, delivered: bool, acknowledged: bool)
    requires Inv(s) && ReserveInv(cfg, s) && s.proc == Some(p) && p.pc.AwaitBroadcast? && p.pc.active.prepared.Some?
    ensures ReserveInv(cfg, ApplySent(s, p, delivered, acknowledged))
  {
    ActiveInFlight(s);
    var n' := ApplySent(s, p, delivered, acknowledged).net;
    SentCovers(cfg, s.net, n', s.disk.value.nextSlot, p.pc.active);
    SentCovers(cfg, s.net, n', p.mem.nextSlot, p.pc.active);
  }

  lemma SentCovers(cfg: Config, net: Net, n': Net, slot: int, a: Active)
    requires CoveredAt(cfg, net, slot) && a.prepared.Some? && a.prepared.value.slot == slot
    requires a.prepared.value !in net.executed ==> a.fee + cfg.reserve <= net.Balance()
    requires n' == net || n' == net.(pool := net.pool[a.prepared.value := a.fee])
    ensures CoveredAt(cfg, n', slot)
  {
    if SlotPaid(net, slot) {
      assert SlotPaid(n', slot);
    } else {
      assert a.prepared.value !in net.executed;
    }
  }

  lemma SaveKeepsReserve(cfg: Config, s: System, p: Proc, j: Journal, o: Outcome, next: Pc)
    requires ReserveInv(cfg, s) && s.proc.Some? && s.proc.value.mem == p.mem
    requires CoveredAt(cfg, s.net, j.nextSlot) && PcFunded(cfg, s.net, next)
    ensures ReserveInv(cfg, Save(s, p, j, o, next))
  {}

  /** Asking for the balance: signed state already shows every payment but the active one. */
  lemma InspectedKeepsReserve(cfg: Config, s: System, p: Proc, i: Inspection, o: Outcome)
    requires Inv(s) && ReserveInv(cfg, s) && s.proc == Some(p) && p.pc.AwaitInspect? && p.pc.active.prepared.Some?
    ensures ReserveInv(cfg, ApplyInspected(s, p, i, o))
  {
    var a := p.pc.active.(phase := MsbConfirmed);
    SaveKeepsReserve(cfg, s, p, p.mem.(active := Some(a)), o, AwaitReconcile(a));
    SaveKeepsReserve(cfg, s, p, p.mem, o, Idle);
    SignedShowsTheRest(cfg, s);
  }

  lemma SignedShowsTheRest(cfg: Config, s: System)
    requires Inv(s) && ReserveInv(cfg, s) && s.proc.Some? && s.proc.value.pc.AwaitInspect?
    ensures s.proc.value.pc.active.prepared.Some?
    ensures s.proc.value.pc.active.prepared.value in s.net.executed || s.net.signedSpent == s.net.spent
  {
    ActiveInFlight(s);
    if s.proc.value.pc.active.prepared.value !in s.net.executed {
      forall u | u in s.net.executed ensures u in s.net.confirmed {
        if u !in s.net.confirmed { OnlyActiveIsUnconfirmed(s, u); }
      }
      NothingUnconfirmed(s);
    }
  }

  lemma LeavingKeepsReserve(cfg: Config, s: System, p: Proc, pc: Pc)
    requires ReserveInv(cfg, s) && s.proc == Some(p) && (pc.Idle? || pc.Throwing?)
    ensures ReserveInv(cfg, s.(proc := Some(p.(pc := pc))))
  {}

  lemma RefundedKeepsReserve(cfg: Config, s: System, p: Proc, balance: int, fee: int, monotonic: int, o: Outcome)
    requires ReserveInv(cfg, s) && s.proc == Some(p) && p.pc.AwaitRefunding?
    requires balance <= s.net.deposits - p.pc.seenSpent
    ensures ReserveInv(cfg, ApplyRefunded(cfg, s, p, balance, fee, monotonic, o))
  {
    var b := p.pc.active.(phase := BroadcastOrUncertain, attempts := p.pc.active.attempts + 1);
    if fee != p.pc.active.fee {
      LeavingKeepsReserve(cfg, s, p, Throwing);
    } else if balance < p.pc.active.fee + cfg.reserve {
      SaveKeepsReserve(cfg, s, p, p.mem, o, Idle);
    } else if p.stopped || monotonic < p.nextBroadcastAt {
      LeavingKeepsReserve(cfg, s, p, Idle);
    } else {
      SaveKeepsReserve(cfg, s, p.(nextBroadcastAt := monotonic + cfg.spacing), p.mem.(active := Some(b)), o, AwaitBroadcast(b));
    }
  }

  /** Nothing has been handed out for a slot that is still to come. */
  lemma AdvanceKeepsReserve(cfg: Config, s: System, p: Proc, o: Outcome)
    requires Inv(s) && ReserveInv(cfg, s) && s.proc == Some(p) && p.pc.Advancing?
    ensures ReserveInv(cfg, ApplyAdvance(s, p, o))
  {
    var j := p.mem.(active := None, nextSlot := p.pc.active.slot + 1);
    forall t | t in s.net.pool ensures t.slot != j.nextSlot { assert Accounted(p.mem, s.completed, t); }
    SaveKeepsReserve(cfg, s, p, j, o, Idle);
  }

  lemma StartKeepsReserve(cfg: Config, s: System, identity: nat, current: Option<int>, preparing: Option<int>, now: nat, o: Outcome)
    requires Inv(s) && ReserveInv(cfg, s)
    ensures ReserveInv(cfg, ApplyStart(s, identity, current, preparing, now, o))
  {
    if s.disk.None? { assert s.net.pool == map[]; }
  }

  lemma ScheduleKeepsReserve(cfg: Config, s: System, p: Proc, now: nat, o: Outcome)
    requires ReserveInv(cfg, s) && s.proc == Some(p)
    ensures ReserveInv(cfg, ApplySchedule(s, p, now, o))
  {}

  lemma BeginKeepsReserve(cfg: Config, s: System, p: Proc, o: Outcome)
    requires ReserveInv(cfg, s) && s.proc == Some(p)
    ensures ReserveInv(cfg, ApplyBegin(s, p, o))
  {
    var a := Active(p.mem.nextSlot, Due, None, 0, 0, []);
    SaveKeepsReserve(cfg, s, p, p.mem.(active := Some(a)), o, AwaitFunding(a));
  }

  lemma FundedKeepsReserve(cfg: Config, s: System, p: Proc, balance: int, fee: int, o: Outcome)
    requires ReserveInv(cfg, s) && s.proc == Some(p) && p.pc.AwaitFunding?
    ensures ReserveInv(cfg, ApplyFunded(cfg, s, p, balance, fee, o))
  {
    SaveKeepsReserve(cfg, s, p, p.mem, o, Idle);
  }

  lemma ReconciledKeepsReserve(cfg: Config, s: System, p: Proc, found: bool, o: Outcome)
    requires ReserveInv(cfg, s) && s.proc == Some(p) && p.pc.AwaitReconcile? && p.pc.active.prepared.Some?
    ensures ReserveInv(cfg, ApplyReconciled(s, p, found, o))
  {}

  /** Answers that change the active attempt leave the slot as it was. */
  lemma AttemptKeepsReserve(cfg: Config, s: System, p: Proc, tx: Tx, o: Outcome)
    requires ReserveInv(cfg, s) && s.proc == Some(p)
    ensures p.pc.AwaitPayment? ==> ReserveInv(cfg, ApplyPaid(s, p, tx, o))
    ensures p.pc.AwaitReplacement? && p.pc.active.prepared.Some? ==> ReserveInv(cfg, ApplyReplaced(s, p, tx, o))
  {}

  lemma NetworkKeepsReserve(cfg: Config, s: System, a: Action)
    requires Inv(s) && ReserveInv(cfg, s) && Enabled(cfg, s, a) && ChargesRecordedFee(s, a)
    requires a.Rotate? || a.Execute? || a.Confirm? || a.Deposit?
    ensures ReserveInv(cfg, Apply(cfg, s, a))
  {
    if a.Execute? { ExecuteKeepsReserve(cfg, s, a); }
    else if a.Confirm? { ConfirmKeepsReserve(cfg, s, a); }
    else { QuietKeepsReserve(cfg, s, Apply(cfg, s, a).net); }
  }

  lemma AnswerKeepsReserve(cfg: Config, s: System, a: Action)
    requires Inv(s) && ReserveInv(cfg, s) && Enabled(cfg, s, a)
    requires a.Paid? || a.Inspected? || a.Replaced? || a.Refunded? || a.Sent?
    ensures ReserveInv(cfg, Apply(cfg, s, a))
  {
    var p := s.proc.value;
    match a
    case Paid(tx, o) => AttemptKeepsReserve(cfg, s, p, tx, o);
    case Inspected(i, o) => InspectedKeepsReserve(cfg, s, p, i, o);
    case Replaced(tx, o) => AttemptKeepsReserve(cfg, s, p, tx, o);
    case Refunded(balance, fee, m, o) => RefundedKeepsReserve(cfg, s, p, balance, fee, m, o);
    case Sent(delivered, acknowledged) => SentKeepsReserve(cfg, s, p, delivered, acknowledged);
  }

  lemma LocalKeepsReserve(cfg: Config, s: System, a: Action)
    requires Inv(s) && ReserveInv(cfg, s) && Enabled(cfg, s, a)
    requires a.Start? || a.Schedule? || a.Begin? || a.Funded? || a.Reconciled? || a.Advance?
    ensures ReserveInv(cfg, Apply(cfg, s, a))
  {
    match a
    case Start(i, c, q, now, o) => StartKeepsReserve(cfg, s, i, c, q, now, o);
    case Schedule(now, o) => ScheduleKeepsReserve(cfg, s, s.proc.value, now, o);
    case Begin(o) => BeginKeepsReserve(cfg, s, s.proc.value, o);
    case Funded(balance, fee, o) => FundedKeepsReserve(cfg, s, s.proc.value, balance, fee, o);
    case Reconciled(found, o) => ReconciledKeepsReserve(cfg, s, s.proc.value, found, o);
    case Advance(o) => AdvanceKeepsReserve(cfg, s, s.proc.value, o);
  }

  lemma EndingKeepsReserve(cfg: Config, s: System, a: Action)
    requires ReserveInv(cfg, s) && Enabled(cfg, s, a)
    requires a.Rejected? || a.Degrade? || a.Stop? || a.Exit? || a.Crash?
    ensures ReserveInv(cfg, Apply(cfg, s, a))
  {}

  lemma StepKeepsReserve(cfg: Config, s: System, a: Action)
    requires Inv(s) && ReserveInv(cfg, s) && Enabled(cfg, s, a) && ChargesRecordedFee(s, a)
    ensures ReserveInv(cfg, Apply(cfg, s, a))
  {
    if a.Rotate? || a.Execute? || a.Confirm? || a.Deposit? { NetworkKeepsReserve(cfg, s, a); }
    else if a.Paid? || a.Inspected? || a.Replaced? || a.Refunded? || a.Sent? { AnswerKeepsReserve(cfg, s, a); }
    else if a.Start? || a.Schedule? || a.Begin? || a.Funded? || a.Reconciled? || a.Advance? { LocalKeepsReserve(cfg, s, a); }
    else { EndingKeepsReserve(cfg, s, a); }
  }

  lemma {:induction false} RunKeepsReserve(cfg: Config, s: System, run: seq<Action>)
    requires Inv(s) && ReserveInv(cfg, s) && IsRun(cfg, s, run) && Calm(cfg, s, run) && AlwaysChargesRecordedFee(cfg, s, run)
    ensures Inv(After(cfg, s, run)) && ReserveInv(cfg, After(cfg, s, run))
    decreases |run|
  {
    if run != [] {
      StepPreserves(cfg, s, run[0]);
      StepKeepsReserve(cfg, s, run[0]);
      RunKeepsReserve(cfg, Apply(cfg, s, run[0]), run[1..]);
    }
  }

  /** Once anything has been paid the balance is at or above the reserve, after every run. */
  lemma EveryPaymentLeavesTheReserve(cfg: Config, s: System, run: seq<Action>)
    requires Init(s) && IsRun(cfg, s, run) && Calm(cfg, s, run) && AlwaysChargesRecordedFee(cfg, s, run)
    ensures After(cfg, s, run).net.executed != map[] ==> cfg.reserve <= After(cfg, s, run).net.Balance()
  {
    RunKeepsReserve(cfg, s, run);
  }
}
