/**
 The invariant of the paid-checkpoint writer, kept by every step with crashes, restarts and failed
 writes at any point, as long as the network does not return to the context of a superseded attempt.
 */
module CheckpointSafety {
  import opened Wrappers
  import opened CheckpointProtocol

  /** The transaction has not executed, and its context is behind the network. */
  predicate Dead(net: Net, t: Tx) {
    t !in net.executed && t.txv in net.visited && t.txv != net.ctx
  }

  /** A retired attempt carries its evidence, and is dead if it was handed out and another took its place. */
  predicate RetiredOk(net: Net, slot: int, prepared: Option<Tx>, r: Retired) {
    && r.prepared.slot == slot && EvidenceMatches(r.evidence, r.prepared)
    && (r.prepared in net.pool && prepared != Some(r.prepared) ==> Dead(net, r.prepared))
  }

  ghost predicate AllRetiredOk(net: Net, slot: int, prepared: Option<Tx>, rs: seq<Retired>) {
    forall r :: r in rs ==> RetiredOk(net, slot, prepared, r)
  }

  ghost predicate ActiveOk(net: Net, slot: int, a: Active) {
    && a.slot == slot
    && (a.phase != Due ==> a.prepared.Some?)
    && (a.prepared.Some? ==> a.prepared.value.slot == slot && a.prepared.value.txv in net.visited)
    && (a.phase == MsbConfirmed ==> a.prepared.value in net.confirmed)
    && AllRetiredOk(net, slot, a.prepared, a.retired)
  }

  /**
   Transaction `t` is on record: in the active attempt of its slot, among that slot's
   retired attempts, or in the completed record of a slot already passed.
   */
  ghost predicate Accounted(j: Journal, completed: map<int, Record>, t: Tx) {
    if t.slot == j.nextSlot then
      j.active.Some? && (j.active.value.prepared == Some(t) || AmongRetired(j.active.value.retired, t))
    else
      && t.slot < j.nextSlot && t.slot in completed
      && (completed[t.slot].prepared == t || AmongRetired(completed[t.slot].retired, t))
  }

  /** Completed slots run from the first slot without a gap, up to and possibly including the next one. */
  ghost predicate NoGap(j: Journal, completed: map<int, Record>) {
    && (forall k :: j.startSlot <= k < j.nextSlot ==> k in completed)
    && (forall k :: k in completed ==> j.startSlot <= k <= j.nextSlot)
  }

  ghost predicate JournalOk(completed: map<int, Record>, net: Net, j: Journal) {
    && j.startSlot <= j.nextSlot <= j.dueThrough + 1
    && (j.active.Some? ==> ActiveOk(net, j.nextSlot, j.active.value))
    && NoGap(j, completed)
    && (forall t :: t in net.pool ==> Accounted(j, completed, t))
  }

  ghost predicate RecordsOk(completed: map<int, Record>, net: Net) {
    forall k :: k in completed ==>
      && completed[k].slot == k && completed[k].prepared.slot == k
      && completed[k].prepared in net.confirmed
      && AllRetiredOk(net, k, Some(completed[k].prepared), completed[k].retired)
  }

  predicate NetOk(net: Net) {
    && net.ctx in net.visited
    && net.executed.Keys <= net.pool.Keys
    && net.confirmed <= net.executed.Keys
  }

  /** Disk and memory agree up to scheduler writes. */
  predicate Synced(d: Journal, m: Journal) {
    d.(dueThrough := 0) == m.(dueThrough := 0)
  }

  predicate InFlight(pc: Pc) { !pc.Idle? && !pc.Throwing? }

  ghost predicate PcOk(s: System, d: Journal, p: Proc) {
    && (p.pc.Idle? ==> p.stopped || Synced(d, p.mem))
    && (InFlight(p.pc) ==>
          && Synced(d, p.mem) && p.mem.active == Some(p.pc.active)
          && p.mem.nextSlot <= p.mem.dueThrough
          && (p.pc.active.prepared.None? <==> p.pc.AwaitFunding? || p.pc.AwaitPayment?)
          && (p.pc.AwaitReconcile? || p.pc.Advancing? ==> p.pc.active.phase == MsbConfirmed)
          && (p.pc.Advancing? ==> p.pc.active.slot in s.completed && s.completed[p.pc.active.slot] == RecordOf(p.pc.active))
          && (p.pc.AwaitReplacement? ==>
                EvidenceMatches(p.pc.evidence, p.pc.active.prepared.value)
                && (p.pc.active.prepared.value in s.net.pool ==> Dead(s.net, p.pc.active.prepared.value))))
  }

  ghost predicate Inv(s: System) {
    && NetOk(s.net) && RecordsOk(s.completed, s.net)
    && (s.disk.None? ==> s.proc.None? && s.net.pool == map[] && s.completed == map[])
    && (s.disk.Some? ==> JournalOk(s.completed, s.net, s.disk.value))
    && (s.proc.Some? ==>
          && JournalOk(s.completed, s.net, s.proc.value.mem)
          && s.disk.value.startSlot == s.proc.value.mem.startSlot
          && PcOk(s, s.disk.value, s.proc.value))
  }

  // ---- network moves ----

  /** The network moves without bringing back a superseded attempt. */
  ghost predicate Evolves(s: System, n': Net) {
    && n'.pool == s.net.pool && s.net.visited <= n'.visited && s.net.confirmed <= n'.confirmed
    && forall t :: Superseded(s, t) && Dead(s.net, t) ==> Dead(n', t)
  }

  lemma RetiredEvolve(s: System, n': Net, slot: int, prepared: Option<Tx>, rs: seq<Retired>)
    requires Evolves(s, n') && AllRetiredOk(s.net, slot, prepared, rs)
    requires forall t :: t in s.net.pool && RetiredFor(prepared, rs, t) ==> Superseded(s, t)
    ensures AllRetiredOk(n', slot, prepared, rs)
  {
    forall r | r in rs ensures RetiredOk(n', slot, prepared, r) {
      assert RetiredOk(s.net, slot, prepared, r) && AmongRetired(rs, r.prepared);
      if r.prepared in s.net.pool && prepared != Some(r.prepared) { assert Superseded(s, r.prepared); }
    }
  }

  lemma JournalEvolves(s: System, n': Net, j: Journal)
    requires Evolves(s, n') && JournalOk(s.completed, s.net, j)
    requires s.disk == Some(j) || (s.proc.Some? && s.proc.value.mem == j)
    ensures JournalOk(s.completed, n', j)
  {
    if j.active.Some? {
      forall t | t in s.net.pool && RetiredFor(j.active.value.prepared, j.active.value.retired, t) ensures Superseded(s, t) {
        assert SupersededBy(j, t);
      }
      RetiredEvolve(s, n', j.nextSlot, j.active.value.prepared, j.active.value.retired);
    }
  }

  lemma RecordEvolves(s: System, n': Net, k: int)
    requires Evolves(s, n') && RecordsOk(s.completed, s.net) && k in s.completed
    ensures AllRetiredOk(n', k, Some(s.completed[k].prepared), s.completed[k].retired)
  {
    RetiredEvolve(s, n', k, Some(s.completed[k].prepared), s.completed[k].retired);
  }

  lemma SystemEvolves(s: System, n': Net)
    requires Inv(s) && Evolves(s, n') && NetOk(n')
    ensures Inv(s.(net := n'))
  {
    forall k | k in s.completed ensures AllRetiredOk(n', k, Some(s.completed[k].prepared), s.completed[k].retired) {
      RecordEvolves(s, n', k);
    }
    if s.disk.Some? { JournalEvolves(s, n', s.disk.value); }
    if s.proc.Some? { JournalEvolves(s, n', s.proc.value.mem); }
  }

  lemma ExecutedIsCurrent(s: System, t: Tx)
    requires Inv(s) && t in s.net.executed
    ensures s.disk.Some?
    ensures var j := s.disk.value;
            if t.slot == j.nextSlot then j.active.Some? && j.active.value.prepared == Some(t)
            else t.slot in s.completed && s.completed[t.slot].prepared == t
  {
    CurrentIn(s, s.disk.value, t);
  }

  /** What is not dead, of all that was handed out, is current in the journal: active, or the slot's payment. */
  lemma CurrentIn(s: System, j: Journal, t: Tx)
    requires RecordsOk(s.completed, s.net) && JournalOk(s.completed, s.net, j) && t in s.net.pool && !Dead(s.net, t)
    ensures if t.slot == j.nextSlot then j.active.Some? && j.active.value.prepared == Some(t)
            else t.slot in s.completed && s.completed[t.slot].prepared == t
  {
    assert Accounted(j, s.completed, t);
  }

  lemma NetworkPreserves(cfg: Config, s: System, a: Action)
    requires Inv(s) && Enabled(cfg, s, a) && CalmStep(s, a)
    requires a.Rotate? || a.Execute? || a.Confirm? || a.Deposit?
    ensures Inv(Apply(cfg, s, a))
  {
    SystemEvolves(s, Apply(cfg, s, a).net);
  }

  // ---- process moves ----

  lemma SavePreserves(s: System, p: Proc, j: Journal, o: Outcome, next: Pc)
    requires Inv(s) && s.proc == Some(p) && !p.pc.Throwing? && (p.pc.Idle? ==> !p.stopped)
    requires JournalOk(s.completed, s.net, j) && j.startSlot == p.mem.startSlot
    requires PcOk(s, j, p.(mem := j, pc := next))
    ensures Inv(Save(s, p, j, o, next))
  {}

  lemma StartPreserves(cfg: Config, s: System, a: Action)
    requires Inv(s) && Enabled(cfg, s, a) && a.Start?
    ensures Inv(Apply(cfg, s, a))
  {}

  lemma SchedulePreserves(s: System, p: Proc, now: nat, o: Outcome)
    requires Inv(s) && s.proc == Some(p)
    ensures Inv(ApplySchedule(s, p, now, o))
  {
    var j := p.mem.(dueThrough := now / CHECKPOINT_MS);
    if j.dueThrough > p.mem.dueThrough {
      SameRecord(s, p.mem, j);
    }
  }

  /** Whatever keeps the slots and the active attempt keeps every transaction on record. */
  lemma SameRecord(s: System, m: Journal, j: Journal)
    requires JournalOk(s.completed, s.net, m)
    requires j.startSlot == m.startSlot && j.nextSlot == m.nextSlot <= j.dueThrough + 1
    requires j.active == m.active ||
             (j.active.Some? && ActiveOk(s.net, j.nextSlot, j.active.value) && Covers(j.active.value, m.active))
    ensures JournalOk(s.completed, s.net, j)
  {
    forall t | t in s.net.pool ensures Accounted(j, s.completed, t) {
      assert Accounted(m, s.completed, t);
      if t.slot == m.nextSlot && j.active != m.active && m.active.value.prepared != Some(t) {
        var r :| r in m.active.value.retired && r.prepared == t;
        assert r in j.active.value.retired;
      }
    }
  }

  /** Attempt `a` records all that `b` recorded. */
  ghost predicate Covers(a: Active, b: Option<Active>) {
    b.Some? ==>
      && (forall r :: r in b.value.retired ==> r in a.retired)
      && (b.value.prepared.Some? ==>
            a.prepared == b.value.prepared || AmongRetired(a.retired, b.value.prepared.value))
  }

  lemma BeginPreserves(cfg: Config, s: System, a: Action)
    requires Inv(s) && Enabled(cfg, s, a) && a.Begin?
    ensures Inv(Apply(cfg, s, a))
  {
    var p := s.proc.value;
    if p.mem.nextSlot <= p.mem.dueThrough && p.mem.active.None? {
      var d := Active(p.mem.nextSlot, Due, None, 0, 0, []);
      var j := p.mem.(active := Some(d));
      SameRecord(s, p.mem, j);
      SavePreserves(s, p, j, a.outcome, AwaitFunding(d));
    }
  }

  lemma FundedPreserves(cfg: Config, s: System, a: Action)
    requires Inv(s) && Enabled(cfg, s, a) && a.Funded?
    ensures Inv(Apply(cfg, s, a))
  {
    SavePreserves(s, s.proc.value, s.proc.value.mem, a.outcome, Idle);
  }

  lemma PaidPreserves(cfg: Config, s: System, a: Action)
    requires Inv(s) && Enabled(cfg, s, a) && a.Paid?
    ensures Inv(Apply(cfg, s, a))
  {
    var p := s.proc.value;
    var b := p.pc.active.(phase := Prepared, prepared := Some(a.tx), fee := p.pc.quotedFee);
    var j := p.mem.(active := Some(b));
    SameRecord(s, p.mem, j);
    SavePreserves(s, p, j, a.outcome, AwaitInspect(b));
  }

  lemma InspectedPreserves(s: System, p: Proc, i: Inspection, o: Outcome)
    requires Inv(s) && s.proc == Some(p) && p.pc.AwaitInspect?
    requires i.confirmed ==> p.pc.active.prepared.value in s.net.confirmed
    requires i.evidence.Some? ==> Truthful(s.net, i.evidence.value)
    ensures Inv(ApplyInspected(s, p, i, o))
  {
    if i.confirmed {
      var b := p.pc.active.(phase := MsbConfirmed);
      var j := p.mem.(active := Some(b));
      SameRecord(s, p.mem, j);
      SavePreserves(s, p, j, o, AwaitReconcile(b));
    } else {
      SavePreserves(s, p, p.mem, o, Idle);
    }
  }

  lemma ReconciledPreserves(cfg: Config, s: System, a: Action)
    requires Inv(s) && Enabled(cfg, s, a) && a.Reconciled?
    ensures Inv(Apply(cfg, s, a))
  {
    if a.found && a.outcome != LostWrite {
      FiledPreserves(s, s.proc.value, if a.outcome == Durable then Advancing(s.proc.value.pc.active) else Throwing);
    }
  }

  lemma FiledPreserves(s: System, p: Proc, next: Pc)
    requires Inv(s) && s.proc == Some(p) && p.pc.AwaitReconcile?
    requires next == Throwing || next == Advancing(p.pc.active)
    ensures var r := RecordOf(p.pc.active);
            Inv(s.(completed := s.completed[r.slot := r], proc := Some(p.(pc := next))))
  {
    var r := RecordOf(p.pc.active);
    var filed := s.completed[r.slot := r];
    assert JournalOk(filed, s.net, s.disk.value) by { FiledKeeps(s, s.disk.value, filed, r); }
    assert JournalOk(filed, s.net, p.mem) by { FiledKeeps(s, p.mem, filed, r); }
    assert RecordsOk(filed, s.net) by { FiledRecords(s, filed, r); }
  }

  lemma FiledRecords(s: System, filed: map<int, Record>, r: Record)
    requires RecordsOk(s.completed, s.net) && filed == s.completed[r.slot := r]
    requires r.prepared.slot == r.slot && r.prepared in s.net.confirmed && AllRetiredOk(s.net, r.slot, Some(r.prepared), r.retired)
    ensures RecordsOk(filed, s.net)
  {}

  lemma FiledKeeps(s: System, j: Journal, filed: map<int, Record>, r: Record)
    requires JournalOk(s.completed, s.net, j) && filed == s.completed[j.nextSlot := r]
    ensures JournalOk(filed, s.net, j)
  {
    forall t | t in s.net.pool ensures Accounted(j, filed, t) {
      assert Accounted(j, s.completed, t);
    }
  }

  lemma AdvancePreserves(s: System, p: Proc, o: Outcome)
    requires Inv(s) && s.proc == Some(p) && p.pc.Advancing?
    ensures Inv(ApplyAdvance(s, p, o))
  {
    AdvancedOk(s, p);
    SavePreserves(s, p, p.mem.(active := None, nextSlot := p.pc.active.slot + 1), o, Idle);
  }

  lemma AdvancedOk(s: System, p: Proc)
    requires Inv(s) && s.proc == Some(p) && p.pc.Advancing?
    ensures JournalOk(s.completed, s.net, p.mem.(active := None, nextSlot := p.pc.active.slot + 1))
  {
    var j := p.mem.(active := None, nextSlot := p.pc.active.slot + 1);
    forall t | t in s.net.pool ensures Accounted(j, s.completed, t) {
      assert Accounted(p.mem, s.completed, t);
    }
  }

  lemma ReplacedPreserves(cfg: Config, s: System, a: Action)
    requires Inv(s) && Enabled(cfg, s, a) && a.Replaced?
    ensures Inv(Apply(cfg, s, a))
  {
    var p := s.proc.value;
    var was := p.pc.active;
    var last := Retired(was.prepared.value, was.attempts, p.pc.evidence);
    var b := was.(phase := Prepared, prepared := Some(a.tx), attempts := 0, retired := was.retired + [last]);
    assert last in b.retired;
    var j := p.mem.(active := Some(b));
    SameRecord(s, p.mem, j);
    SavePreserves(s, p, j, a.outcome, Idle);
  }

  lemma RefundedPreserves(cfg: Config, s: System, p: Proc, balance: int, fee: int, monotonic: int, o: Outcome)
    requires Inv(s) && s.proc == Some(p) && p.pc.AwaitRefunding?
    ensures Inv(ApplyRefunded(cfg, s, p, balance, fee, monotonic, o))
  {
    if fee == p.pc.active.fee {
      if balance < p.pc.active.fee + cfg.reserve {
        SavePreserves(s, p, p.mem, o, Idle);
      } else if !p.stopped && p.nextBroadcastAt <= monotonic {
        AboutToSend(s, p.(nextBroadcastAt := monotonic + cfg.spacing), o);
      }
    }
  }

  lemma AboutToSend(s: System, q: Proc, o: Outcome)
    requires Running(s) && q.pc.AwaitRefunding?
    requires Inv(s.(proc := Some(q)))
    ensures var b := q.pc.active.(phase := BroadcastOrUncertain, attempts := q.pc.active.attempts + 1);
            Inv(Save(s, q, q.mem.(active := Some(b)), o, AwaitBroadcast(b)))
  {
    var s1 := s.(proc := Some(q));
    var b := q.pc.active.(phase := BroadcastOrUncertain, attempts := q.pc.active.attempts + 1);
    var j := q.mem.(active := Some(b));
    SameRecord(s1, q.mem, j);
    SavePreserves(s1, q, j, o, AwaitBroadcast(b));
    assert Save(s1, q, j, o, AwaitBroadcast(b)) == Save(s, q, j, o, AwaitBroadcast(b));
  }

  lemma SentPreserves(cfg: Config, s: System, a: Action)
    requires Inv(s) && Enabled(cfg, s, a) && a.Sent?
    ensures Inv(Apply(cfg, s, a))
  {
    var p := s.proc.value;
    var n' := Apply(cfg, s, a).net;
    PooledKeeps(s, s.disk.value, n');
    PooledKeeps(s, p.mem, n');
    PooledRecords(s, p.pc.active.prepared.value, n');
  }

  lemma PooledKeeps(s: System, j: Journal, n': Net)
    requires JournalOk(s.completed, s.net, j) && j.active.Some?
    requires n' == s.net.(pool := n'.pool)
    requires forall t :: t in n'.pool ==> t in s.net.pool || j.active.value.prepared == Some(t)
    ensures JournalOk(s.completed, n', j)
  {
    forall r | r in j.active.value.retired ensures RetiredOk(n', j.nextSlot, j.active.value.prepared, r) {
      assert RetiredOk(s.net, j.nextSlot, j.active.value.prepared, r);
    }
  }

  /** Handing out the active attempt leaves the completed records alone: one of its own slot names it as the payment. */
  lemma PooledRecords(s: System, t: Tx, n': Net)
    requires Inv(s) && s.disk.Some? && s.disk.value.active.Some? && s.disk.value.active.value.prepared == Some(t)
    requires n' == s.net.(pool := n'.pool) && forall u :: u in n'.pool ==> u in s.net.pool || u == t
    ensures RecordsOk(s.completed, n')
  {
    forall k | k in s.completed ensures AllRetiredOk(n', k, Some(s.completed[k].prepared), s.completed[k].retired) {
      if k == t.slot { ExecutedIsCurrent(s, s.completed[k].prepared); }
      forall r | r in s.completed[k].retired ensures RetiredOk(n', k, Some(s.completed[k].prepared), r) {
        assert RetiredOk(s.net, k, Some(s.completed[k].prepared), r);
      }
    }
  }

  lemma DegradePreserves(cfg: Config, s: System, a: Action)
    requires Inv(s) && Enabled(cfg, s, a) && a.Degrade?
    ensures Inv(Apply(cfg, s, a))
  {}

  lemma {:induction false} StepPreserves(cfg: Config, s: System, a: Action)
    requires Inv(s) && Enabled(cfg, s, a) && CalmStep(s, a)
    ensures Inv(Apply(cfg, s, a))
  {
    match a
    case Start(_, _, _, _, _) => StartPreserves(cfg, s, a);
    case Schedule(now, o) => SchedulePreserves(s, s.proc.value, now, o);
    case Begin(_) => BeginPreserves(cfg, s, a);
    case Funded(_, _, _) => FundedPreserves(cfg, s, a);
    case Paid(_, _) => PaidPreserves(cfg, s, a);
    case Inspected(i, o) => InspectedPreserves(s, s.proc.value, i, o);
    case Reconciled(_, _) => ReconciledPreserves(cfg, s, a);
    case Advance(o) => AdvancePreserves(s, s.proc.value, o);
    case Replaced(_, _) => ReplacedPreserves(cfg, s, a);
    case Refunded(balance, fee, m, o) => RefundedPreserves(cfg, s, s.proc.value, balance, fee, m, o);
    case Sent(_, _) => SentPreserves(cfg, s, a);
    case Rejected =>
    case Degrade(_) => DegradePreserves(cfg, s, a);
    case Stop =>
    case Exit =>
    case Crash =>
    case Rotate(_) => NetworkPreserves(cfg, s, a);
    case Execute(_, _) => NetworkPreserves(cfg, s, a);
    case Confirm(_) => NetworkPreserves(cfg, s, a);
    case Deposit(_) => NetworkPreserves(cfg, s, a);
  }

  lemma {:induction false} RunPreserves(cfg: Config, s: System, run: seq<Action>)
    requires Inv(s) && IsRun(cfg, s, run) && Calm(cfg, s, run)
    ensures Inv(After(cfg, s, run))
    decreases |run|
  {
    if run != [] {
      StepPreserves(cfg, s, run[0]);
      RunPreserves(cfg, Apply(cfg, s, run[0]), run[1..]);
    }
  }
}
