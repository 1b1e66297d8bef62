/**
 The worker object itself: its fields, updated in place by the code between two awaits. Every method
 keeps the safety invariant, and any script of answers, failures, crashes and network moves leaves the
 object in the state the protocol reaches, with at most one payment per slot and the reserve intact.
 */
module CheckpointWorker {
  import opened Wrappers
  import opened CheckpointProtocol
  import opened CheckpointSafety
  import opened CheckpointTheorems
  import opened CheckpointReserve

  /**
   The short-write loop under every durable save.  `writeSync(k, n)` is what the k-th call
   reports for n bytes offered; a call that makes no progress aborts the save.
   */
  method WriteAll(bytes: seq<nat>, writeSync: (nat, nat) -> int) returns (ok: bool, file: seq<nat>, calls: nat)
    requires forall k: nat, n: nat :: writeSync(k, n) <= n
    ensures ok ==> file == bytes
    ensures !ok ==> |file| < |bytes| && file == bytes[..|file|] && writeSync(calls, |bytes| - |file|) < 1
  {
    file := [];
    var written := 0;
    calls := 0;
    while written < |bytes|
      invariant written <= |bytes| && file == bytes[..written]
      decreases |bytes| - written
    {
      var count := writeSync(calls, |bytes| - written);
      if count < 1 {
        return false, file, calls;
      }
      file := file + bytes[written..written + count];
      written := written + count;
      calls := calls + 1;
    }
    ok := true;
  }

  class WriterCheckpointWorker {
    const cfg: Config
    /** The network its transport talks to. */
    var net: Net
    /** The journal directory. */
    var disk: Option<Journal>
    var completed: map<int, Record>
    /** The process, while it is up. */
    var up: bool
    var mem: Journal
    var pc: Pc
    var stopped: bool
    var nextBroadcastAt: int

    ghost function Process(): Proc
      reads this
    {
      Proc(mem, pc, stopped, nextBroadcastAt)
    }

    ghost function State(): System
      reads this
    {
      System(disk, completed, if up then Some(Process()) else None, net)
    }

    /** An empty journal directory, no process, a network that has seen nothing. */
    constructor (cfg: Config, ctx: nat, deposits: int)
      ensures this.cfg == cfg && Init(State()) && net.ctx == ctx && net.Balance() == deposits
    {
      this.cfg := cfg;
      net := Net(ctx, {ctx}, map[], map[], {}, deposits, 0, 0);
      disk, completed, up := None, map[], false;
      mem, pc, stopped, nextBroadcastAt := FreshJournal(0, 0), Idle, false, 0;
    }

    /** Reload the journal and compare, or open one after the canonical head; the process stays down on a refusal. */
    method Initialize(identity: nat, current: Option<int>, preparing: Option<int>, now: nat, o: Outcome)
      requires Inv(State()) && !up && now <= MAX_TIME_MS
      modifies this`disk, this`up, this`mem, this`pc, this`stopped, this`nextBroadcastAt
      ensures Inv(State()) && State() == ApplyStart(old(State()), identity, current, preparing, now, o)
    {
      StartPreserves(cfg, State(), Start(identity, current, preparing, now, o));
      if disk.Some? {
        if !ReloadValid(disk.value) || disk.value.identity != identity { return; }
        mem := disk.value;
      } else {
        if preparing.Some? && preparing.value > (if current.Some? then current.value else 0) { return; }
        var opening := FreshJournal(identity, FirstSlot(current, now));
        if o == LostWrite { return; }
        disk := Some(opening);
        if o == FailedAfterRename { return; }
        mem := opening;
      }
      up, pc, stopped, nextBroadcastAt := true, Idle, false, 0;
    }

    /** `journal.save`: true when it returned, false when it threw. */
    method SaveJournal(j: Journal, o: Outcome) returns (ok: bool)
      modifies this`disk, this`mem
      ensures ok == (o == Durable)
      ensures mem == if ok then j else old(mem)
      ensures disk == if o == LostWrite then old(disk) else Some(j)
    {
      if o == LostWrite { return false; }
      disk := Some(j);
      if o == FailedAfterRename { return false; }
      mem := j;
      ok := true;
    }

    /** Save, then suspend at `next` or leave through the catch handler. */
    method SaveThen(j: Journal, o: Outcome, next: Pc)
      requires up
      modifies this`disk, this`mem, this`pc
      ensures State() == Save(old(State()), old(Process()), j, o, next)
    {
      var ok := SaveJournal(j, o);
      pc := if ok then next else Throwing;
    }

    method ScheduleDue(now: nat, o: Outcome)
      requires Inv(State()) && up && !stopped
      modifies this`disk, this`mem, this`stopped
      ensures Inv(State()) && State() == ApplySchedule(old(State()), old(Process()), now, o)
    {
      SchedulePreserves(State(), Process(), now, o);
      var due := now / CHECKPOINT_MS;
      if due > mem.dueThrough {
        var ok := SaveJournal(mem.(dueThrough := due), o);
        if !ok { stopped := true; }
      }
    }

    method BeginStep(o: Outcome)
      requires Inv(State()) && Enabled(cfg, State(), Begin(o))
      modifies this`disk, this`mem, this`pc
      ensures Inv(State()) && State() == ApplyBegin(old(State()), old(Process()), o)
    {
      BeginPreserves(cfg, State(), Begin(o));
      if mem.nextSlot > mem.dueThrough { return; }
      var a;
      if mem.active.Some? {
        a := mem.active.value;
      } else {
        a := Active(mem.nextSlot, Due, None, 0, 0, []);
        var ok := SaveJournal(mem.(active := Some(a)), o);
        if !ok { pc := Throwing; return; }
      }
      pc := if a.prepared.Some? then AwaitInspect(a) else AwaitFunding(a);
    }

    method OnFunding(balance: int, fee: int, o: Outcome)
      requires Inv(State()) && Enabled(cfg, State(), Funded(balance, fee, o))
      modifies this`disk, this`mem, this`pc
      ensures Inv(State()) && State() == ApplyFunded(cfg, old(State()), old(Process()), balance, fee, o)
    {
      FundedPreserves(cfg, State(), Funded(balance, fee, o));
      if balance < fee + cfg.reserve {
        SaveThen(mem, o, Idle);
      } else {
        pc := AwaitPayment(pc.active, fee);
      }
    }

    method OnPayment(tx: Tx, o: Outcome)
      requires Inv(State()) && Enabled(cfg, State(), Paid(tx, o))
      modifies this`disk, this`mem, this`pc
      ensures Inv(State()) && State() == ApplyPaid(old(State()), old(Process()), tx, o)
    {
      PaidPreserves(cfg, State(), Paid(tx, o));
      var a := pc.active.(phase := Prepared, prepared := Some(tx), fee := pc.quotedFee);
      SaveThen(mem.(active := Some(a)), o, AwaitInspect(a));
    }

    method OnInspection(i: Inspection, o: Outcome)
      requires Inv(State()) && Enabled(cfg, State(), Inspected(i, o))
      modifies this`disk, this`mem, this`pc
      ensures Inv(State()) && State() == ApplyInspected(old(State()), old(Process()), i, o)
    {
      InspectedPreserves(State(), Process(), i, o);
      var a := pc.active;
      if i.confirmed {
        a := a.(phase := MsbConfirmed);
        SaveThen(mem.(active := Some(a)), o, AwaitReconcile(a));
        return;
      }
      if i.contextChanged {
        if i.evidence.Some? && EvidenceMatches(i.evidence.value, a.prepared.value) {
          pc := AwaitReplacement(a, i.evidence.value);
        } else {
          SaveThen(mem, o, Idle);
        }
        return;
      }
      pc := AwaitRefunding(a, net.signedSpent);
    }

    method OnReconciled(found: bool, o: Outcome)
      requires Inv(State()) && Enabled(cfg, State(), Reconciled(found, o))
      modifies this`completed, this`pc
      ensures Inv(State()) && State() == ApplyReconciled(old(State()), old(Process()), found, o)
    {
      ReconciledPreserves(cfg, State(), Reconciled(found, o));
      var a := pc.active;
      if !found { pc := Idle; return; }
      if o == LostWrite { pc := Throwing; return; }
      completed := completed[a.slot := RecordOf(a)];
      pc := if o == Durable then Advancing(a) else Throwing;
    }

    method AdvanceSlot(o: Outcome)
      requires Inv(State()) && Enabled(cfg, State(), Advance(o))
      modifies this`disk, this`mem, this`pc
      ensures Inv(State()) && State() == ApplyAdvance(old(State()), old(Process()), o)
    {
      AdvancePreserves(State(), Process(), o);
      SaveThen(mem.(active := None, nextSlot := pc.active.slot + 1), o, Idle);
    }

    method OnReplacement(tx: Tx, o: Outcome)
      requires Inv(State()) && Enabled(cfg, State(), Replaced(tx, o))
      modifies this`disk, this`mem, this`pc
      ensures Inv(State()) && State() == ApplyReplaced(old(State()), old(Process()), tx, o)
    {
      ReplacedPreserves(cfg, State(), Replaced(tx, o));
      var a := pc.active;
      a := a.(phase := Prepared, prepared := Some(tx), attempts := 0,
              retired := a.retired + [Retired(a.prepared.value, a.attempts, pc.evidence)]);
      SaveThen(mem.(active := Some(a)), o, Idle);
    }

    method OnRefunding(balance: int, fee: int, monotonic: int, o: Outcome)
      requires Inv(State()) && Enabled(cfg, State(), Refunded(balance, fee, monotonic, o))
      modifies this`disk, this`mem, this`pc, this`nextBroadcastAt
      ensures Inv(State()) && State() == ApplyRefunded(cfg, old(State()), old(Process()), balance, fee, monotonic, o)
    {
      RefundedPreserves(cfg, State(), Process(), balance, fee, monotonic, o);
      var a := pc.active;
      if fee != a.fee { pc := Throwing; return; }
      if balance < a.fee + cfg.reserve { SaveThen(mem, o, Idle); return; }
      if stopped || monotonic < nextBroadcastAt { pc := Idle; return; }
      nextBroadcastAt := monotonic + cfg.spacing;
      a := a.(phase := BroadcastOrUncertain, attempts := a.attempts + 1);
      SaveThen(mem.(active := Some(a)), o, AwaitBroadcast(a));
    }

    /** The broadcast returns or fails; either way it may have been delivered. */
    method OnBroadcast(delivered: bool, acknowledged: bool)
      requires Inv(State()) && Enabled(cfg, State(), Sent(delivered, acknowledged))
      modifies this`pc, this`net
      ensures Inv(State()) && State() == ApplySent(old(State()), old(Process()), delivered, acknowledged)
    {
      SentPreserves(cfg, State(), Sent(delivered, acknowledged));
      if delivered { net := net.(pool := net.pool[pc.active.prepared.value := pc.active.fee]); }
      pc := if acknowledged then Idle else Throwing;
    }

    method OnError(o: Outcome)
      requires Inv(State()) && Enabled(cfg, State(), Degrade(o))
      modifies this`disk, this`mem, this`pc, this`stopped
      ensures Inv(State()) && State() == ApplyDegrade(old(State()), old(Process()), o)
    {
      DegradePreserves(cfg, State(), Degrade(o));
      var ok := SaveJournal(mem, o);
      pc := Idle;
      if !ok { stopped := true; }
    }

    /** What the network does between two steps of the worker. */
    method NetworkMoves(a: Action)
      requires Enabled(cfg, State(), a) && (a.Rotate? || a.Execute? || a.Confirm? || a.Deposit?)
      modifies this`net
      ensures State() == Apply(cfg, old(State()), a)
    {
      match a
      case Rotate(c) => net := net.(ctx := c, visited := net.visited + {c});
      case Execute(t, charge) => net := net.(executed := net.executed[t := charge], spent := net.spent + charge);
      case Confirm(t) => net := net.(confirmed := net.confirmed + {t}, signedSpent := net.signedSpent + net.executed[t]);
      case Deposit(n) => net := net.(deposits := net.deposits + n);
    }

    /** An answer to the call the process is suspended at. */
    method Answered(a: Action)
      requires Inv(State()) && Enabled(cfg, State(), a)
      requires a.Funded? || a.Paid? || a.Inspected? || a.Reconciled? || a.Replaced? || a.Refunded? || a.Sent?
      modifies this
      ensures Inv(State()) && State() == Apply(cfg, old(State()), a)
    {
      match a
      case Funded(balance, fee, o) => OnFunding(balance, fee, o);
      case Paid(tx, o) => OnPayment(tx, o);
      case Inspected(i, o) => OnInspection(i, o);
      case Reconciled(found, o) => OnReconciled(found, o);
      case Replaced(tx, o) => OnReplacement(tx, o);
      case Refunded(balance, fee, m, o) => OnRefunding(balance, fee, m, o);
      case Sent(delivered, acknowledged) => OnBroadcast(delivered, acknowledged);
    }

    /** A call that throws, a stop, the end of the process. */
    method Ends(a: Action)
      requires Enabled(cfg, State(), a) && (a.Rejected? || a.Stop? || a.Exit? || a.Crash?)
      modifies this`pc, this`stopped, this`up
      ensures State() == Apply(cfg, old(State()), a)
    {
      match a
      case Rejected => pc := Throwing;
      case Stop => stopped := true;
      case Exit => up := false;
      case Crash => up := false;
    }

    /** A start, a timer, the code up to the next await, the catch handler. */
    method Local(a: Action)
      requires Inv(State()) && Enabled(cfg, State(), a)
      requires a.Start? || a.Schedule? || a.Begin? || a.Advance? || a.Degrade?
      modifies this
      ensures Inv(State()) && State() == Apply(cfg, old(State()), a)
    {
      match a
      case Start(identity, current, preparing, now, o) => Initialize(identity, current, preparing, now, o);
      case Schedule(now, o) => ScheduleDue(now, o);
      case Begin(o) => BeginStep(o);
      case Advance(o) => AdvanceSlot(o);
      case Degrade(o) => OnError(o);
    }

    method Move(a: Action)
      requires Inv(State()) && Enabled(cfg, State(), a) && CalmStep(State(), a)
      modifies this
      ensures Inv(State()) && State() == Apply(cfg, old(State()), a)
    {
      StepPreserves(cfg, State(), a);
      if a.Rotate? || a.Execute? || a.Confirm? || a.Deposit? { NetworkMoves(a); }
      else if a.Funded? || a.Paid? || a.Inspected? || a.Reconciled? || a.Replaced? || a.Refunded? || a.Sent? { Answered(a); }
      else if a.Rejected? || a.Stop? || a.Exit? || a.Crash? { Ends(a); }
      else { Local(a); }
    }

    /**
     Whatever happens to the worker, from an empty directory on, step by step in any order the network and the
     machine allow: it reaches the protocol's state, no slot is paid twice, and once anything is paid the
     balance is at or above the reserve.
     */
    method Drive(script: seq<Action>)
      requires Init(State()) && IsRun(cfg, State(), script) && Calm(cfg, State(), script)
      modifies this
      ensures State() == After(cfg, old(State()), script)
      ensures AtMostOncePerSlot(State())
      ensures old(AlwaysChargesRecordedFee(cfg, State(), script)) && net.executed != map[] ==> cfg.reserve <= net.Balance()
    {
      ghost var first := State();
      EveryRunPaysAtMostOnce(cfg, first, script);
      if AlwaysChargesRecordedFee(cfg, first, script) { EveryPaymentLeavesTheReserve(cfg, first, script); }
      for i := 0 to |script|
        invariant Inv(State()) && IsRun(cfg, State(), script[i..]) && Calm(cfg, State(), script[i..])
        invariant After(cfg, State(), script[i..]) == After(cfg, first, script)
      {
        assert script[i..][0] == script[i] && script[i..][1..] == script[i + 1..];
        Move(script[i]);
      }
    }
  }
}
