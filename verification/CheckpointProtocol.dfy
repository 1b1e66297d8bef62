/**
 The paid-checkpoint writer as a step relation over (durable directory, volatile
 process, settlement network).  One action is the code between two awaits, one
 file operation, a crash, or one move of the network.
 */
module CheckpointProtocol {
  import opened Wrappers

  const CHECKPOINT_MS: nat := 30_000
  const MAX_SAFE_INTEGER: int := 9_007_199_254_740_991
  /** The last instant an ECMAScript clock can show. */
  const MAX_TIME_MS: nat := 8_640_000_000_000_000
  const UNEXECUTED: string := "unexecuted_at_signed_context_change"

  /** A signed transaction: its hash, the slot it pays for, the network context it names. */
  datatype Tx = Tx(hash: nat, slot: int, txv: nat)

  datatype Evidence = Evidence(kind: string, tx: nat, previousTxv: nat)

  datatype Retired = Retired(prepared: Tx, attempts: nat, evidence: Evidence)

  datatype Phase = Due | Prepared | BroadcastOrUncertain | MsbConfirmed

  datatype Active = Active(
    slot: int, phase: Phase, prepared: Option<Tx>, fee: int, attempts: nat, retired: seq<Retired>)

  /** `state.json`. */
  datatype Journal = Journal(
    identity: nat, startSlot: int, nextSlot: int, dueThrough: int, active: Option<Active>)

  /** `completed/<slot>.json`. */
  datatype Record = Record(slot: int, prepared: Tx, fee: int, retired: seq<Retired>)

  /**
   `pool` holds every transaction ever handed to a validator with the fee recorded
   for it; `executed` holds what each executed transaction was charged; `confirmed`
   is what signed state shows.  `visited` lists every context the network has had.
   */
  datatype Net = Net(
    ctx: nat, visited: set<nat>,
    pool: map<Tx, int>, executed: map<Tx, int>, confirmed: set<Tx>,
    deposits: int, spent: int, signedSpent: int)
  {
    function Balance(): int { deposits - spent }
  }

  /** Where the one in-flight `processSlot` is suspended, with its local `active`. */
  datatype Pc =
    | Idle
    | Throwing
    | AwaitFunding(active: Active)
    | AwaitPayment(active: Active, quotedFee: int)
    | AwaitInspect(active: Active)
    | AwaitReconcile(active: Active)
    | Advancing(active: Active)
    | AwaitReplacement(active: Active, evidence: Evidence)
    | AwaitRefunding(active: Active, seenSpent: int)
    | AwaitBroadcast(active: Active)

  datatype Proc = Proc(mem: Journal, pc: Pc, stopped: bool, nextBroadcastAt: int)

  datatype System = System(
    disk: Option<Journal>, completed: map<int, Record>, proc: Option<Proc>, net: Net)

  datatype Config = Config(reserve: int, spacing: int)

  /** A durable write succeeds, fails before its rename, or fails after its rename. */
  datatype Outcome = Durable | LostWrite | FailedAfterRename

  datatype Inspection = Inspection(confirmed: bool, contextChanged: bool, evidence: Option<Evidence>)

  datatype Action =
    // process
    | Start(identity: nat, current: Option<int>, preparing: Option<int>, now: nat, outcome: Outcome)
    | Schedule(now: nat, outcome: Outcome)
    | Begin(outcome: Outcome)
    | Funded(balance: int, fee: int, outcome: Outcome)
    | Paid(tx: Tx, outcome: Outcome)
    | Inspected(inspection: Inspection, outcome: Outcome)
    | Reconciled(found: bool, outcome: Outcome)
    | Advance(outcome: Outcome)
    | Replaced(tx: Tx, outcome: Outcome)
    | Refunded(balance: int, fee: int, monotonic: int, outcome: Outcome)
    | Sent(delivered: bool, acknowledged: bool)
    | Rejected
    | Degrade(outcome: Outcome)
    | Stop
    | Exit
    | Crash
    // network
    | Rotate(ctx: nat)
    | Execute(tx: Tx, charge: int)
    | Confirm(tx: Tx)
    | Deposit(amount: nat)

  /** The validity test the journal constructor applies to a state it reloads. */
  predicate ReloadValid(j: Journal) {
    && 1 <= j.startSlot <= MAX_SAFE_INTEGER
    && j.startSlot <= j.nextSlot <= MAX_SAFE_INTEGER
    && 0 <= j.dueThrough <= MAX_SAFE_INTEGER
    && j.nextSlot - 1 <= j.dueThrough
    && (j.active.Some? ==>
          && j.active.value.slot == j.nextSlot
          && (j.active.value.phase != Due ==> j.active.value.prepared.Some?))
  }

  function FirstSlot(current: Option<int>, now: nat): int {
    if current.Some? then current.value + 1 else now / CHECKPOINT_MS
  }

  function FreshJournal(identity: nat, next: int): Journal {
    Journal(identity, next, next, next - 1, None)
  }

  /** `journal.save` from inside `processSlot`: memory follows the disk only on success. */
  function Save(s: System, p: Proc, j: Journal, o: Outcome, next: Pc): System {
    match o
    case Durable => s.(disk := Some(j), proc := Some(p.(mem := j, pc := next)))
    case LostWrite => s.(proc := Some(p.(pc := Throwing)))
    case FailedAfterRename => s.(disk := Some(j), proc := Some(p.(pc := Throwing)))
  }

  predicate EvidenceMatches(e: Evidence, t: Tx) {
    e.kind == UNEXECUTED && e.tx == t.hash && e.previousTxv == t.txv
  }

  /** What the network promises about non-execution evidence at the moment it issues it. */
  ghost predicate Truthful(net: Net, e: Evidence) {
    e.kind == UNEXECUTED ==>
      && e.previousTxv in net.visited && e.previousTxv != net.ctx
      && forall t :: t in net.executed && t.hash == e.tx ==> t.txv != e.previousTxv
  }

  predicate Running(s: System) { s.proc.Some? && s.disk.Some? }

  ghost predicate Enabled(cfg: Config, s: System, a: Action) {
    match a
    case Start(_, _, _, now, _) => s.proc.None? && now <= MAX_TIME_MS
    case Schedule(now, _) => Running(s) && !s.proc.value.stopped && now <= MAX_TIME_MS
    case Begin(_) => Running(s) && !s.proc.value.stopped && s.proc.value.pc.Idle?
    case Funded(_, _, _) => Running(s) && s.proc.value.pc.AwaitFunding?
    case Paid(tx, _) => Running(s) && s.proc.value.pc.AwaitPayment?
                        && tx.slot == s.proc.value.pc.active.slot && tx.txv in s.net.visited
    case Inspected(i, _) =>
      && Running(s) && s.proc.value.pc.AwaitInspect? && s.proc.value.pc.active.prepared.Some?
      && (i.confirmed ==> s.proc.value.pc.active.prepared.value in s.net.confirmed)
      && (i.evidence.Some? ==> Truthful(s.net, i.evidence.value))
    case Reconciled(_, _) => Running(s) && s.proc.value.pc.AwaitReconcile? && s.proc.value.pc.active.prepared.Some?
    case Advance(_) => Running(s) && s.proc.value.pc.Advancing?
    case Replaced(tx, _) => Running(s) && s.proc.value.pc.AwaitReplacement?
                            && s.proc.value.pc.active.prepared.Some?
                            && tx.slot == s.proc.value.pc.active.slot && tx.txv in s.net.visited
    // signed state at the length where the read began: deposits signed by then, less what it had charged
    case Refunded(balance, _, _, _) => Running(s) && s.proc.value.pc.AwaitRefunding?
                                       && balance <= s.net.deposits - s.proc.value.pc.seenSpent
    case Sent(_, _) => Running(s) && s.proc.value.pc.AwaitBroadcast? && s.proc.value.pc.active.prepared.Some?
    case Rejected => Running(s) && !s.proc.value.pc.Idle? && !s.proc.value.pc.Throwing? && !s.proc.value.pc.Advancing?
    case Degrade(_) => Running(s) && s.proc.value.pc.Throwing?
    case Stop => Running(s)
    case Exit => Running(s) && s.proc.value.stopped && s.proc.value.pc.Idle?
    case Crash => Running(s)
    case Rotate(c) => c != s.net.ctx
    case Execute(t, _) => t in s.net.pool && t !in s.net.executed && t.txv == s.net.ctx
    case Confirm(t) => t in s.net.executed && t !in s.net.confirmed
    case Deposit(_) => true
  }

  function Apply(cfg: Config, s: System, a: Action): System
    requires Enabled(cfg, s, a)
  {
    match a
    case Start(identity, current, preparing, now, o) => ApplyStart(s, identity, current, preparing, now, o)
    case Schedule(now, o) => ApplySchedule(s, s.proc.value, now, o)
    case Begin(o) => ApplyBegin(s, s.proc.value, o)
    case Funded(balance, fee, o) => ApplyFunded(cfg, s, s.proc.value, balance, fee, o)
    case Paid(tx, o) => ApplyPaid(s, s.proc.value, tx, o)
    case Inspected(i, o) => ApplyInspected(s, s.proc.value, i, o)
    case Reconciled(found, o) => ApplyReconciled(s, s.proc.value, found, o)
    case Advance(o) => ApplyAdvance(s, s.proc.value, o)
    case Replaced(tx, o) => ApplyReplaced(s, s.proc.value, tx, o)
    case Refunded(balance, fee, monotonic, o) => ApplyRefunded(cfg, s, s.proc.value, balance, fee, monotonic, o)
    case Sent(delivered, acknowledged) => ApplySent(s, s.proc.value, delivered, acknowledged)
    case Rejected => s.(proc := Some(s.proc.value.(pc := Throwing)))
    case Degrade(o) => ApplyDegrade(s, s.proc.value, o)
    case Stop => s.(proc := Some(s.proc.value.(stopped := true)))
    case Exit => s.(proc := None)
    case Crash => s.(proc := None)
    case Rotate(c) => s.(net := s.net.(ctx := c, visited := s.net.visited + {c}))
    case Execute(t, charge) =>
      s.(net := s.net.(executed := s.net.executed[t := charge], spent := s.net.spent + charge))
    case Confirm(t) =>
      s.(net := s.net.(confirmed := s.net.confirmed + {t},
                       signedSpent := s.net.signedSpent + s.net.executed[t]))
    case Deposit(n) => s.(net := s.net.(deposits := s.net.deposits + n))
  }

  /** Constructor and `initialize`: reload and compare, or open a journal after the canonical head. */
  function ApplyStart(s: System, identity: nat, current: Option<int>, preparing: Option<int>,
                      now: nat, o: Outcome): System
  {
    match s.disk
    case Some(j) =>
      if !ReloadValid(j) || j.identity != identity then s
      else s.(proc := Some(Proc(j, Idle, false, 0)))
    case None =>
      if preparing.Some? && preparing.value > (if current.Some? then current.value else 0) then s
      else
        var j := FreshJournal(identity, FirstSlot(current, now));
        match o
        case Durable => s.(disk := Some(j), proc := Some(Proc(j, Idle, false, 0)))
        case LostWrite => s
        case FailedAfterRename => s.(disk := Some(j))
  }

  /** `schedule`, with the interval handler that stops the worker when its write fails. */
  function ApplySchedule(s: System, p: Proc, now: nat, o: Outcome): System {
    var due := now / CHECKPOINT_MS;
    if due <= p.mem.dueThrough then s
    else
      var j := p.mem.(dueThrough := due);
      match o
      case Durable => s.(disk := Some(j), proc := Some(p.(mem := j)))
      case LostWrite => s.(proc := Some(p.(stopped := true)))
      case FailedAfterRename => s.(disk := Some(j), proc := Some(p.(stopped := true)))
  }

  function ApplyBegin(s: System, p: Proc, o: Outcome): System {
    if p.mem.nextSlot > p.mem.dueThrough then s
    else match p.mem.active
      case Some(a) =>
        s.(proc := Some(p.(pc := if a.prepared.Some? then AwaitInspect(a) else AwaitFunding(a))))
      case None =>
        var a := Active(p.mem.nextSlot, Due, None, 0, 0, []);
        Save(s, p, p.mem.(active := Some(a)), o, AwaitFunding(a))
  }

  function ApplyFunded(cfg: Config, s: System, p: Proc, balance: int, fee: int, o: Outcome): System
    requires p.pc.AwaitFunding?
  {
    if balance < fee + cfg.reserve then Save(s, p, p.mem, o, Idle)
    else s.(proc := Some(p.(pc := AwaitPayment(p.pc.active, fee))))
  }

  function ApplyPaid(s: System, p: Proc, tx: Tx, o: Outcome): System
    requires p.pc.AwaitPayment?
  {
    var a := p.pc.active.(phase := Prepared, prepared := Some(tx), fee := p.pc.quotedFee);
    Save(s, p, p.mem.(active := Some(a)), o, AwaitInspect(a))
  }

  function ApplyInspected(s: System, p: Proc, i: Inspection, o: Outcome): System
    requires p.pc.AwaitInspect? && p.pc.active.prepared.Some?
  {
    if i.confirmed then
      var a := p.pc.active.(phase := MsbConfirmed);
      Save(s, p, p.mem.(active := Some(a)), o, AwaitReconcile(a))
    else if i.contextChanged then
      if i.evidence.Some? && EvidenceMatches(i.evidence.value, p.pc.active.prepared.value)
      then s.(proc := Some(p.(pc := AwaitReplacement(p.pc.active, i.evidence.value))))
      else Save(s, p, p.mem, o, Idle)
    else s.(proc := Some(p.(pc := AwaitRefunding(p.pc.active, s.net.signedSpent))))
  }

  function RecordOf(a: Active): Record
    requires a.prepared.Some?
  {
    Record(a.slot, a.prepared.value, a.fee, a.retired)
  }

  /** First of the two writes that close a slot: `completed/<slot>.json`. */
  function ApplyReconciled(s: System, p: Proc, found: bool, o: Outcome): System
    requires p.pc.AwaitReconcile? && p.pc.active.prepared.Some?
  {
    if !found then s.(proc := Some(p.(pc := Idle)))
    else
      var a := p.pc.active;
      var filed := s.completed[a.slot := RecordOf(a)];
      match o
      case Durable => s.(completed := filed, proc := Some(p.(pc := Advancing(a))))
      case LostWrite => s.(proc := Some(p.(pc := Throwing)))
      case FailedAfterRename => s.(completed := filed, proc := Some(p.(pc := Throwing)))
  }

  /** Second of the two writes: the journal moves to the next slot. */
  function ApplyAdvance(s: System, p: Proc, o: Outcome): System
    requires p.pc.Advancing?
  {
    Save(s, p, p.mem.(active := None, nextSlot := p.pc.active.slot + 1), o, Idle)
  }

  function ApplyReplaced(s: System, p: Proc, tx: Tx, o: Outcome): System
    requires p.pc.AwaitReplacement? && p.pc.active.prepared.Some?
  {
    var was := p.pc.active;
    var a := was.(phase := Prepared, prepared := Some(tx), attempts := 0,
                  retired := was.retired + [Retired(was.prepared.value, was.attempts, p.pc.evidence)]);
    Save(s, p, p.mem.(active := Some(a)), o, Idle)
  }

  function ApplyRefunded(cfg: Config, s: System, p: Proc, balance: int, fee: int,
                         monotonic: int, o: Outcome): System
    requires p.pc.AwaitRefunding?
  {
    if fee != p.pc.active.fee then s.(proc := Some(p.(pc := Throwing)))
    else if balance < p.pc.active.fee + cfg.reserve then Save(s, p, p.mem, o, Idle)
    else if p.stopped || monotonic < p.nextBroadcastAt then s.(proc := Some(p.(pc := Idle)))
    else
      var a := p.pc.active.(phase := BroadcastOrUncertain, attempts := p.pc.active.attempts + 1);
      var q := p.(nextBroadcastAt := monotonic + cfg.spacing);
      Save(s, q, p.mem.(active := Some(a)), o, AwaitBroadcast(a))
  }

  function ApplySent(s: System, p: Proc, delivered: bool, acknowledged: bool): System
    requires p.pc.AwaitBroadcast? && p.pc.active.prepared.Some?
  {
    var net := if delivered then s.net.(pool := s.net.pool[p.pc.active.prepared.value := p.pc.active.fee]) else s.net;
    s.(net := net, proc := Some(p.(pc := if acknowledged then Idle else Throwing)))
  }

  /** The catch handler of `step`: one more save, and a stop when that save fails too. */
  function ApplyDegrade(s: System, p: Proc, o: Outcome): System {
    match o
    case Durable => s.(disk := Some(p.mem), proc := Some(p.(pc := Idle)))
    case LostWrite => s.(proc := Some(p.(pc := Idle, stopped := true)))
    case FailedAfterRename => s.(disk := Some(p.mem), proc := Some(p.(pc := Idle, stopped := true)))
  }

  // ---- runs ----

  predicate Init(s: System) {
    && s.disk.None? && s.proc.None? && s.completed == map[]
    && s.net.visited == {s.net.ctx}
    && s.net.pool == map[] && s.net.executed == map[] && s.net.confirmed == {}
    && s.net.spent == s.net.signedSpent
  }

  ghost predicate IsRun(cfg: Config, s: System, run: seq<Action>)
    decreases |run|
  {
    run == [] || (Enabled(cfg, s, run[0]) && IsRun(cfg, Apply(cfg, s, run[0]), run[1..]))
  }

  ghost function After(cfg: Config, s: System, run: seq<Action>): System
    requires IsRun(cfg, s, run)
    decreases |run|
  {
    if run == [] then s else After(cfg, Apply(cfg, s, run[0]), run[1..])
  }

  ghost predicate AmongRetired(rs: seq<Retired>, t: Tx) {
    exists r :: r in rs && r.prepared == t
  }

  /** Retired, and not what is prepared now. */
  ghost predicate RetiredFor(prepared: Option<Tx>, rs: seq<Retired>, t: Tx) {
    AmongRetired(rs, t) && prepared != Some(t)
  }

  ghost predicate SupersededBy(j: Journal, t: Tx) {
    j.active.Some? && RetiredFor(j.active.value.prepared, j.active.value.retired, t)
  }

  /**
   `t` was handed out and is on record as retired for another: by the state file, in memory, by a completed
   record, or about to be.
   */
  ghost predicate Superseded(s: System, t: Tx) {
    t in s.net.pool &&
    (|| (s.disk.Some? && SupersededBy(s.disk.value, t))
     || (s.proc.Some? && SupersededBy(s.proc.value.mem, t))
     || (s.proc.Some? && s.proc.value.pc.AwaitReplacement? && s.proc.value.pc.active.prepared == Some(t))
     || (exists k :: k in s.completed && RetiredFor(Some(s.completed[k].prepared), s.completed[k].retired, t)))
  }

  /** The network does not go back to a context that a superseded attempt names. */
  ghost predicate CalmStep(s: System, a: Action) {
    a.Rotate? ==> forall t :: Superseded(s, t) ==> t.txv != a.ctx
  }

  ghost predicate Calm(cfg: Config, s: System, run: seq<Action>)
    requires IsRun(cfg, s, run)
    decreases |run|
  {
    run == [] || (CalmStep(s, run[0]) && Calm(cfg, Apply(cfg, s, run[0]), run[1..]))
  }

  /** Of all transactions that pay for one slot, at most one has executed. */
  ghost predicate AtMostOncePerSlot(s: System) {
    forall t, u :: t in s.net.executed && u in s.net.executed && t.slot == u.slot ==> t == u
  }
}
