/**
 Progress: when the network answers, funds suffice and broadcasts are spaced, each
 worker step lowers (backlog, phase), so a backlog of n slots takes exactly 2n steps.
 */
module CheckpointProgress {
  import opened Wrappers
  import opened CheckpointProtocol
  import opened CheckpointSafety
  import opened CheckpointTheorems

  /** What one worker step hears: a payment to sign, the fee, the balance, the monotonic clock. */
  datatype Answers = Answers(tx: Tx, fee: int, balance: int, monotonic: int)

  function Backlog(j: Journal): nat {
    if j.dueThrough < j.nextSlot then 0 else j.dueThrough - j.nextSlot + 1
  }

  function Payment(j: Journal): Option<Tx> {
    if j.active.Some? then j.active.value.prepared else None
  }

  predicate Awaiting(s: System)
    requires s.disk.Some?
  {
    !(Payment(s.disk.value).Some? && Payment(s.disk.value).value in s.net.confirmed)
  }

  /** Between steps: idle, in sync, and the open payment, if any, can execute or is confirmed. */
  ghost predicate Settled(s: System) {
    && Inv(s) && Running(s) && s.proc.value.pc.Idle? && !s.proc.value.stopped
    && s.disk == Some(s.proc.value.mem)
    && (Payment(s.proc.value.mem).Some? ==>
          var t := Payment(s.proc.value.mem).value;
          t in s.net.confirmed || (t !in s.net.executed && t.txv == s.net.ctx))
  }

  predicate Generous(cfg: Config, s: System, ans: Answers)
    requires Running(s)
  {
    var m := s.proc.value.mem;
    && ans.tx.slot == m.nextSlot && ans.tx.txv == s.net.ctx
    && ans.tx !in s.net.pool && ans.tx !in s.net.executed
    && (Payment(m).Some? ==> ans.fee == m.active.value.fee)
    && ans.fee + cfg.reserve <= ans.balance <= s.net.deposits - s.net.signedSpent
    && s.proc.value.nextBroadcastAt <= ans.monotonic
  }

  const CLOSING: seq<Action> :=
    [Begin(Durable), Inspected(Inspection(true, false, None), Durable), Reconciled(true, Durable), Advance(Durable)]

  function Paying(t: Tx, ans: Answers): seq<Action> {
    [Inspected(Inspection(false, false, None), Durable), Refunded(ans.balance, ans.fee, ans.monotonic, Durable),
     Sent(true, true), Execute(t, ans.fee), Confirm(t)]
  }

  /** One `step()` of the worker and the network's answer to it. */
  function StepActions(s: System, ans: Answers): seq<Action>
    requires Running(s)
  {
    var m := s.proc.value.mem;
    if Backlog(m) == 0 then []
    else if !Awaiting(s.(disk := Some(m))) then CLOSING
    else match Payment(m)
      case Some(t) => [Begin(Durable)] + Paying(t, ans)
      case None => [Begin(Durable), Funded(ans.balance, ans.fee, Durable), Paid(ans.tx, Durable)] + Paying(ans.tx, ans)
  }

  /** (backlog, phase) as one number: two steps for each slot, less one once its payment is confirmed. */
  function Rank(s: System): int
    requires s.disk.Some?
  {
    2 * Backlog(s.disk.value) - if Backlog(s.disk.value) == 0 || Awaiting(s) then 0 else 1
  }

  /** A run in which the context stays is calm. */
  lemma {:induction false} StayingIsCalm(cfg: Config, s: System, run: seq<Action>)
    requires IsRun(cfg, s, run) && forall i :: 0 <= i < |run| ==> !run[i].Rotate?
    ensures Calm(cfg, s, run)
    decreases |run|
  {
    if run != [] { StayingIsCalm(cfg, Apply(cfg, s, run[0]), run[1..]); }
  }

  lemma RunOfTwo(cfg: Config, s: System, a: Action, b: Action)
    requires Enabled(cfg, s, a) && Enabled(cfg, Apply(cfg, s, a), b)
    ensures IsRun(cfg, s, [a, b]) && After(cfg, s, [a, b]) == Apply(cfg, Apply(cfg, s, a), b)
  {
    Extend(cfg, s, [], a);
    assert [] + [a] == [a];
    Extend(cfg, s, [a], b);
    assert [a] + [b] == [a, b];
  }

  /** A confirmed payment closes its slot in one step. */
  lemma ClosingStep(cfg: Config, s: System)
    requires Settled(s) && Backlog(s.disk.value) > 0 && !Awaiting(s)
    ensures IsRun(cfg, s, CLOSING)
    ensures var e := After(cfg, s, CLOSING);
            && Running(e) && e.proc.value.pc.Idle? && !e.proc.value.stopped && e.net == s.net
            && e.disk == Some(s.disk.value.(active := None, nextSlot := s.disk.value.nextSlot + 1))
            && e.disk == Some(e.proc.value.mem)
  {
    SeenConfirmed(cfg, s);
    var first := [CLOSING[0], CLOSING[1]];
    var m := After(cfg, s, first);
    RunOfTwo(cfg, m, CLOSING[2], CLOSING[3]);
    Concat(cfg, s, first, [CLOSING[2], CLOSING[3]]);
    assert first + [CLOSING[2], CLOSING[3]] == CLOSING;
  }

  lemma SeenConfirmed(cfg: Config, s: System)
    requires Settled(s) && Backlog(s.disk.value) > 0 && !Awaiting(s)
    ensures IsRun(cfg, s, [CLOSING[0], CLOSING[1]])
    ensures var a, j := s.disk.value.active.value.(phase := MsbConfirmed), s.disk.value;
            var j' := j.(active := Some(a));
            After(cfg, s, [CLOSING[0], CLOSING[1]]) ==
            s.(disk := Some(j'), proc := Some(s.proc.value.(mem := j', pc := AwaitReconcile(a))))
  {
    RunOfTwo(cfg, s, CLOSING[0], CLOSING[1]);
  }

  predicate ReadyToPay(cfg: Config, s: System, t: Tx, ans: Answers) {
    && Running(s) && !s.proc.value.stopped && s.disk == Some(s.proc.value.mem)
    && s.proc.value.pc.AwaitInspect? && s.proc.value.mem.active == Some(s.proc.value.pc.active)
    && s.proc.value.pc.active.prepared == Some(t) && s.proc.value.pc.active.fee == ans.fee
    && t !in s.net.executed && t !in s.net.confirmed && t.txv == s.net.ctx
    && ans.fee + cfg.reserve <= ans.balance <= s.net.deposits - s.net.signedSpent
    && s.proc.value.nextBroadcastAt <= ans.monotonic
  }

  /** From the first inspection: broadcast, execute, confirm. */
  lemma PayingStep(cfg: Config, s: System, t: Tx, ans: Answers)
    requires ReadyToPay(cfg, s, t, ans)
    ensures IsRun(cfg, s, Paying(t, ans))
    ensures var e := After(cfg, s, Paying(t, ans));
            && Running(e) && e.proc.value.pc.Idle? && !e.proc.value.stopped
            && e.disk == Some(e.proc.value.mem) && t in e.net.confirmed
            && Backlog(e.disk.value) == Backlog(s.disk.value) && Payment(e.disk.value) == Some(t)
  {
    var p := Paying(t, ans);
    RunOfTwo(cfg, s, p[0], p[1]);
    var m := After(cfg, s, [p[0], p[1]]);
    SettlingPart(cfg, m, t, ans);
    Concat(cfg, s, [p[0], p[1]], [p[2], p[3], p[4]]);
    assert [p[0], p[1]] + [p[2], p[3], p[4]] == p;
  }

  lemma SettlingPart(cfg: Config, m: System, t: Tx, ans: Answers)
    requires Running(m) && m.proc.value.pc.AwaitBroadcast? && m.proc.value.pc.active.prepared == Some(t)
    requires t !in m.net.executed && t !in m.net.confirmed && t.txv == m.net.ctx
    ensures var run := [Sent(true, true), Execute(t, ans.fee), Confirm(t)];
            && IsRun(cfg, m, run)
            && var e := After(cfg, m, run);
            && e.disk == m.disk && e.proc == Some(m.proc.value.(pc := Idle)) && t in e.net.confirmed
  {
    var a, b, c := Sent(true, true), Execute(t, ans.fee), Confirm(t);
    RunOfTwo(cfg, m, a, b);
    Extend(cfg, m, [a, b], c);
    assert [a, b] + [c] == [a, b, c];
  }

  /** A slot with no payment yet gets one, journalled before anything is sent. */
  lemma PreparingStep(cfg: Config, s: System, ans: Answers)
    requires Settled(s) && Backlog(s.disk.value) > 0 && Payment(s.disk.value).None? && Generous(cfg, s, ans)
    ensures var run := [Begin(Durable), Funded(ans.balance, ans.fee, Durable), Paid(ans.tx, Durable)];
            && IsRun(cfg, s, run)
            && var e := After(cfg, s, run);
            && Running(e) && !e.proc.value.stopped && e.disk == Some(e.proc.value.mem) && e.net == s.net
            && e.proc.value.pc.AwaitInspect? && e.proc.value.mem.active == Some(e.proc.value.pc.active)
            && e.proc.value.pc.active.prepared == Some(ans.tx) && e.proc.value.pc.active.fee == ans.fee
            && e.proc.value.nextBroadcastAt == s.proc.value.nextBroadcastAt
            && Backlog(e.disk.value) == Backlog(s.disk.value)
  {
    var a, b, c := Begin(Durable), Funded(ans.balance, ans.fee, Durable), Paid(ans.tx, Durable);
    RunOfTwo(cfg, s, a, b);
    Extend(cfg, s, [a, b], c);
    assert [a, b] + [c] == [a, b, c];
  }

  /** The payment of the open slot is confirmed, and the slot is still open. */
  predicate JustPaid(s: System, e: System)
    requires s.disk.Some?
  {
    && Running(e) && e.proc.value.pc.Idle? && !e.proc.value.stopped && e.disk == Some(e.proc.value.mem)
    && Backlog(e.disk.value) == Backlog(s.disk.value)
    && Payment(e.disk.value).Some? && Payment(e.disk.value).value in e.net.confirmed
  }

  lemma FirstAttempt(cfg: Config, s: System, ans: Answers)
    requires Settled(s) && Backlog(s.disk.value) > 0 && Generous(cfg, s, ans) && Payment(s.disk.value).None?
    ensures var first := [Begin(Durable), Funded(ans.balance, ans.fee, Durable), Paid(ans.tx, Durable)];
            IsRun(cfg, s, first + Paying(ans.tx, ans)) && JustPaid(s, After(cfg, s, first + Paying(ans.tx, ans)))
  {
    var first := [Begin(Durable), Funded(ans.balance, ans.fee, Durable), Paid(ans.tx, Durable)];
    PreparingStep(cfg, s, ans);
    PayingStep(cfg, After(cfg, s, first), ans.tx, ans);
    Concat(cfg, s, first, Paying(ans.tx, ans));
  }

  lemma NextAttempt(cfg: Config, s: System, ans: Answers, t: Tx)
    requires Settled(s) && Backlog(s.disk.value) > 0 && Awaiting(s) && Generous(cfg, s, ans)
    requires Payment(s.disk.value) == Some(t)
    ensures var run := [Begin(Durable)] + Paying(t, ans); IsRun(cfg, s, run) && JustPaid(s, After(cfg, s, run))
  {
    Extend(cfg, s, [], Begin(Durable));
    assert [] + [Begin(Durable)] == [Begin(Durable)];
    PayingStep(cfg, After(cfg, s, [Begin(Durable)]), t, ans);
    Concat(cfg, s, [Begin(Durable)], Paying(t, ans));
  }

  /** Each step lowers the rank by one: the phase falls, or the backlog does. */
  lemma StepLowersRank(cfg: Config, s: System, ans: Answers)
    requires Settled(s) && Backlog(s.disk.value) > 0 && Generous(cfg, s, ans)
    ensures IsRun(cfg, s, StepActions(s, ans))
    ensures var e := After(cfg, s, StepActions(s, ans));
            && Settled(e) && Rank(e) == Rank(s) - 1
            && (Awaiting(s) ==> !Awaiting(e) && Backlog(e.disk.value) == Backlog(s.disk.value))
            && (!Awaiting(s) ==> Awaiting(e) && Backlog(e.disk.value) == Backlog(s.disk.value) - 1)
  {
    assert s.(disk := Some(s.proc.value.mem)) == s;
    if !Awaiting(s) {
      ClosingStep(cfg, s);
    } else if Payment(s.disk.value).None? {
      FirstAttempt(cfg, s, ans);
    } else {
      NextAttempt(cfg, s, ans, Payment(s.disk.value).value);
    }
    StayingIsCalm(cfg, s, StepActions(s, ans));
    RunPreserves(cfg, s, StepActions(s, ans));
  }

  ghost predicate AllGenerous(cfg: Config, s: System, heard: seq<Answers>)
    decreases |heard|
  {
    heard == [] ||
    (&& Running(s) && Generous(cfg, s, heard[0]) && IsRun(cfg, s, StepActions(s, heard[0]))
     && AllGenerous(cfg, After(cfg, s, StepActions(s, heard[0])), heard[1..]))
  }

  ghost function AfterSteps(cfg: Config, s: System, heard: seq<Answers>): System
    requires AllGenerous(cfg, s, heard)
    decreases |heard|
  {
    if heard == [] then s
    else AfterSteps(cfg, After(cfg, s, StepActions(s, heard[0])), heard[1..])
  }

  /** n open slots, none of them paid yet and none newly due, are all closed after 2n steps and not before. */
  lemma {:induction false} BacklogEmptiesInTwoStepsPerSlot(cfg: Config, s: System, heard: seq<Answers>)
    requires Settled(s) && AllGenerous(cfg, s, heard) && |heard| <= Rank(s)
    ensures Settled(AfterSteps(cfg, s, heard)) && Rank(AfterSteps(cfg, s, heard)) == Rank(s) - |heard|
    ensures Awaiting(s) ==>
              (Backlog(AfterSteps(cfg, s, heard).disk.value) == 0 <==> |heard| == 2 * Backlog(s.disk.value))
    decreases |heard|
  {
    if heard != [] {
      StepLowersRank(cfg, s, heard[0]);
      BacklogEmptiesInTwoStepsPerSlot(cfg, After(cfg, s, StepActions(s, heard[0])), heard[1..]);
    }
  }
}
