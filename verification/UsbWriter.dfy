/**
  The write side of an IOCards device: the update thread pushes packets and starts a transfer, the
  libusb thread's callback starts the next one. Both share a queue and a running flag; each atomic
  access of either is one step, so a run is any interleaving of the two threads.
*/
module UsbWriter {
  import opened Common

  type Packet = seq<nat>

  /** Where the update thread is: between sends, pushing, or at a point of send_mastercard. */
  datatype Update = Returned | Building | Sizing | Waiting | Looking | Popping | Submitting(packet: Option<Packet>)

  /** Where the completion callback is. */
  datatype Callback = NotRunning | Entered(completed: bool) | Taking | Resubmitting(next: Option<Packet>) | Clearing

  datatype State = State(
    queue: seq<Packet>, running: bool, failed: bool, transferLost: bool, inFlight: seq<Packet>,
    update: Update, callback: Callback,
    pushed: seq<Packet>, popped: seq<Packet>, submitted: seq<Packet>)

  const START := State([], false, false, false, [], Building, NotRunning, [], [], [])

  /** One atomic step; `ok` says whether a submission or a transfer succeeds. */
  datatype Step = Push(packet: Packet) | UpdateStep(ok: bool) | Complete(ok: bool) | CallbackStep(ok: bool) | ReadFails

  function Head(queue: seq<Packet>): Option<Packet> {
    if queue == [] then None else Some(queue[0])
  }

  function Tail(queue: seq<Packet>): seq<Packet> {
    if queue == [] then [] else queue[1..]
  }

  function Popped(s: State): State {
    s.(queue := Tail(s.queue), popped := s.popped + if s.queue == [] then [] else [s.queue[0]])
  }

  /** The block under the mutex: hand the packet to libusb unless the event thread has failed. */
  function Submitted(s: State, packet: Option<Packet>, ok: bool): State {
    if packet.None? || s.failed then s.(running := false)
    else if ok then
      s.(running := true, inFlight := s.inFlight + [packet.value], submitted := s.submitted + [packet.value])
    else s.(running := false, failed := true)
  }

  function UpdateThread(s: State, ok: bool): State {
    match s.update
    case Returned => s.(update := Building)
    case Building => s.(update := Sizing)
    case Sizing => s.(update := if s.queue == [] then Returned else Waiting)
    case Waiting => if s.running then s else s.(update := Looking)
    case Looking => s.(update := if s.queue == [] then Returned else Popping)
    case Popping => Popped(s).(update := Submitting(Head(s.queue)))
    case Submitting(packet) => Submitted(s, packet, ok).(update := Returned)
  }

  function CallbackThread(s: State, ok: bool): State {
    match s.callback
    case NotRunning => s
    case Entered(completed) =>
      if !completed then s.(callback := NotRunning, failed := true, transferLost := true)
      else s.(callback := if s.queue == [] then Clearing else Taking)
    case Taking => Popped(s).(callback := if s.queue == [] then Clearing else Resubmitting(Head(s.queue)))
    case Resubmitting(packet) => Submitted(s, packet, ok).(callback := NotRunning)
    case Clearing => s.(callback := NotRunning, running := false)
  }

  function Next(s: State, step: Step): State {
    match step
    case Push(packet) =>
      if s.update == Building then s.(queue := s.queue + [packet], pushed := s.pushed + [packet]) else s
    case UpdateStep(ok) => UpdateThread(s, ok)
    case Complete(ok) =>
      if s.inFlight != [] && s.callback == NotRunning then s.(inFlight := s.inFlight[1..], callback := Entered(ok)) else s
    case CallbackStep(ok) => CallbackThread(s, ok)
    case ReadFails => s.(failed := true)
  }

  function Run(steps: seq<Step>): State {
    if steps == [] then START else Next(Run(steps[..|steps| - 1]), steps[|steps| - 1])
  }

  // ---- the invariant ----

  /** The packets taken from the queue but not yet handed to libusb. */
  function InHand(s: State): seq<Packet> {
    (if s.update.Submitting? && s.update.packet.Some? then [s.update.packet.value] else [])
    + if s.callback.Resubmitting? && s.callback.next.Some? then [s.callback.next.value] else []
  }

  /** Exactly one of the three keeps the running flag up: a transfer, a callback, a lost transfer. */
  predicate SingleFlight(s: State) {
    var holders := |s.inFlight| + (if s.callback.NotRunning? then 0 else 1) + (if s.transferLost then 1 else 0);
    holders <= 1 && (s.running <==> holders == 1)
  }

  /** Packets are popped in the order pushed and, until something fails, submitted in the order popped. */
  predicate Flow(s: State) {
    && s.pushed == s.popped + s.queue
    && s.submitted <= s.popped
    && (!s.failed ==> !s.transferLost && s.popped == s.submitted + InHand(s))
  }

  predicate Inv(s: State) {
    && SingleFlight(s)
    && (s.update.Looking? || s.update.Popping? || s.update.Submitting? ==> !s.running)
    && (s.update.Popping? || s.callback.Taking? ==> s.queue != [])
    && (s.update.Submitting? ==> s.update.packet.Some?)
    && (s.callback.Resubmitting? ==> s.callback.next.Some?)
    && Flow(s)
    && (s.update.Returned? && !s.failed && s.queue != [] ==> Attended(s))
  }

  /** A transfer is in flight, or its callback runs and has not yet found the queue empty. */
  predicate Attended(s: State) {
    s.inFlight != [] || s.callback.Entered? || s.callback.Taking? || s.callback.Resubmitting?
  }

  lemma UpdateKeepsInv(s: State, ok: bool)
    requires Inv(s)
    ensures Inv(UpdateThread(s, ok))
  {
    UpdateKeepsFlow(s, ok);
    hide Flow, Popped;
  }

  lemma UpdateKeepsFlow(s: State, ok: bool)
    requires Inv(s)
    ensures Flow(UpdateThread(s, ok))
  {
    match s.update {
      case Popping => PoppingFlows(s);
      case Submitting(packet) => SubmittingFlows(s, ok);
      case _ =>
    }
  }

  lemma PoppingFlows(s: State)
    requires Inv(s) && s.update.Popping?
    ensures Flow(UpdateThread(s, true))
  {
    assert s.queue == [s.queue[0]] + s.queue[1..];
    PoppedFlows(s.pushed, s.popped, s.submitted, s.queue);
  }

  lemma PoppedFlows(pushed: seq<Packet>, popped: seq<Packet>, submitted: seq<Packet>, queue: seq<Packet>)
    requires queue != [] && pushed == popped + queue && submitted <= popped
    ensures pushed == popped + [queue[0]] + queue[1..] && submitted <= popped + [queue[0]]
  {
    assert queue == [queue[0]] + queue[1..];
  }

  lemma SubmittingFlows(s: State, ok: bool)
    requires Inv(s) && s.update.Submitting?
    ensures Flow(UpdateThread(s, ok))
  {
    assert s.callback.NotRunning?;
    if !s.failed {
      assert s.popped == s.submitted + [s.update.packet.value];
    }
  }

  lemma CallbackKeepsInv(s: State, ok: bool)
    requires Inv(s)
    ensures Inv(CallbackThread(s, ok))
  {
    CallbackKeepsFlow(s, ok);
    hide Flow, Popped;
  }

  lemma CallbackKeepsFlow(s: State, ok: bool)
    requires Inv(s)
    ensures Flow(CallbackThread(s, ok))
  {
    match s.callback {
      case Taking => TakingFlows(s);
      case Resubmitting(packet) => ResubmittingFlows(s, ok);
      case _ =>
    }
  }

  lemma TakingFlows(s: State)
    requires Inv(s) && s.callback.Taking?
    ensures Flow(CallbackThread(s, true))
  {
    assert s.queue == [s.queue[0]] + s.queue[1..];
    PoppedFlows(s.pushed, s.popped, s.submitted, s.queue);
  }

  lemma ResubmittingFlows(s: State, ok: bool)
    requires Inv(s) && s.callback.Resubmitting?
    ensures Flow(CallbackThread(s, ok))
  {
    assert !s.update.Submitting?;
    if !s.failed {
      assert s.popped == s.submitted + [s.callback.next.value];
    }
  }

  lemma NextKeepsInv(s: State, step: Step)
    requires Inv(s)
    ensures Inv(Next(s, step))
  {
    match step {
      case UpdateStep(ok) => UpdateKeepsInv(s, ok);
      case CallbackStep(ok) => CallbackKeepsInv(s, ok);
      case Push(packet) => assert s.popped + (s.queue + [packet]) == s.popped + s.queue + [packet];
      case _ =>
    }
  }

  lemma {:induction false} RunKeepsInv(steps: seq<Step>)
    ensures Inv(Run(steps))
  {
    if steps != [] {
      RunKeepsInv(steps[..|steps| - 1]);
      NextKeepsInv(Run(steps[..|steps| - 1]), steps[|steps| - 1]);
    }
  }

  // ---- what it gives ----

  /** In every interleaving, with or without failures: one transfer at a time, in the order pushed. */
  lemma OneInFlightInOrder(steps: seq<Step>)
    ensures var s := Run(steps);
      && |s.inFlight| <= 1
      && s.submitted <= s.pushed
  {
    RunKeepsInv(steps);
  }

  /** Until something fails, every pushed packet is submitted, held by one thread, or still queued. */
  lemma NothingLost(steps: seq<Step>)
    requires !Run(steps).failed
    ensures var s := Run(steps);
      && s.pushed == s.submitted + InHand(s) + s.queue
      && |InHand(s)| <= 1
  {
    RunKeepsInv(steps);
  }

  /** When send_mastercard returns with packets still queued, a transfer or its callback attends to them. */
  lemma ReturnLeavesQueueAttended(steps: seq<Step>)
    requires var s := Run(steps); s.update.Returned? && !s.failed && s.queue != []
    ensures Attended(Run(steps)) && Run(steps).running
  {
    RunKeepsInv(steps);
  }

  /** How many steps the callback side still has to make. */
  function Work(s: State): nat {
    5 * |s.queue|
    + (if s.inFlight != [] then 4 else 0)
    + (match s.callback
       case NotRunning => 0
       case Entered(_) => 3
       case Taking => 2
       case Resubmitting(_) => 5
       case Clearing => 1)
  }

  /** Let the transfers complete and their callbacks run, without failures and with no new push. */
  function Drained(s: State): (t: State)
    requires Inv(s) && !s.failed && s.update.Returned? && s.callback != Entered(false)
    requires s.queue != [] ==> Attended(s)
    ensures t.queue == [] && t.inFlight == [] && t.callback == NotRunning && !t.running
    ensures t.submitted == t.pushed == s.pushed
    decreases Work(s)
  {
    if s.callback != NotRunning then
      var t := CallbackThread(s, true);
      CallbackKeepsInv(s, true);
      Drained(t)
    else if s.inFlight != [] then
      NextKeepsInv(s, Complete(true));
      Drained(Next(s, Complete(true)))
    else s
  }

  /** Every step of a running callback, and every completion, uses up work: no schedule runs for ever. */
  lemma CallbackUsesWork(s: State, ok: bool)
    requires Inv(s) && !s.callback.NotRunning?
    ensures Work(CallbackThread(s, ok)) < Work(s)
  {
    if s.callback.Taking? {
      assert |s.queue[1..]| == |s.queue| - 1;
    }
  }

  lemma CompletionUsesWork(s: State, ok: bool)
    requires Inv(s) && s.inFlight != []
    ensures s.callback == NotRunning && Work(Next(s, Complete(ok))) < Work(s)
  {
  }

  /** Once the event thread has failed, nothing more is submitted. */
  lemma {:induction false} FailedSubmitsNothing(steps: seq<Step>, more: seq<Step>)
    requires Run(steps).failed
    ensures Run(steps + more).failed && Run(steps + more).submitted == Run(steps).submitted
  {
    if more == [] {
      assert steps + more == steps;
    } else {
      var n := |more| - 1;
      hide Next;
      FailedSubmitsNothing(steps, more[..n]);
      assert (steps + more)[..|steps + more| - 1] == steps + more[..n];
      FailedNext(Run(steps + more[..n]), more[n]);
    }
  }

  lemma FailedNext(s: State, step: Step)
    requires s.failed
    ensures Next(s, step).failed && Next(s, step).submitted == s.submitted
  {
  }

  // ---- a failed transfer ----

  /** The running flag will never come down: a transfer has failed, or its callback is about to say so. */
  predicate Doomed(s: State) {
    s.transferLost || s.callback == Entered(false)
  }

  /** A send that waits on such a flag never returns, whatever happens. */
  lemma {:induction false} FailedTransferHangs(steps: seq<Step>, more: seq<Step>)
    requires Doomed(Run(steps)) && Run(steps).update.Waiting?
    ensures Doomed(Run(steps + more)) && Run(steps + more).update.Waiting?
  {
    if more == [] {
      assert steps + more == steps;
    } else {
      var n := |more| - 1;
      FailedTransferHangs(steps, more[..n]);
      assert (steps + more)[..|steps + more| - 1] == steps + more[..n];
      RunKeepsInv(steps + more[..n]);
    }
  }

  lemma RunOneMore(steps: seq<Step>, step: Step)
    ensures Run(steps + [step]) == Next(Run(steps), step)
  {
    assert (steps + [step])[..|steps + [step]| - 1] == steps;
  }

  /** Otherwise the transfer completes, its callbacks run until the flag is down, and the send goes on. */
  lemma {:induction false} WaitCanEnd(steps: seq<Step>) returns (end: seq<Step>)
    requires Run(steps).update.Waiting? && !Doomed(Run(steps))
    ensures steps <= end && Run(end).update.Returned?
    decreases Work(Run(steps))
  {
    var s := Run(steps);
    RunKeepsInv(steps);
    if !s.running {
      end := SendEnds(steps);
    } else {
      var step := if s.callback != NotRunning then CallbackStep(true) else Complete(true);
      RunOneMore(steps, step);
      if s.callback != NotRunning {
        CallbackUsesWork(s, true);
      } else {
        CompletionUsesWork(s, true);
      }
      end := WaitCanEnd(steps + [step]);
    }
  }

  /** With the flag down, at most four steps of the update thread finish the send. */
  lemma SendEnds(steps: seq<Step>) returns (end: seq<Step>)
    requires Run(steps).update.Waiting? && !Run(steps).running
    ensures steps <= end && Run(end).update.Returned?
  {
    end := steps;
    while !Run(end).update.Returned?
      invariant steps <= end
      invariant Run(end).update.Waiting? ==> !Run(end).running
      invariant Run(end).update.Returned? || StepsLeft(Run(end).update) > 0
      decreases StepsLeft(Run(end).update)
    {
      RunOneMore(end, UpdateStep(true));
      end := end + [UpdateStep(true)];
    }
  }

  function StepsLeft(u: Update): nat {
    match u
    case Waiting => 4
    case Looking => 3
    case Popping => 2
    case Submitting(_) => 1
    case _ => 0
  }

  /** A waiting send can still return exactly if no transfer has failed. */
  lemma WaitEndsIff(steps: seq<Step>)
    requires Run(steps).update.Waiting?
    ensures (exists more :: Run(steps + more).update.Returned?) <==> !Doomed(Run(steps))
  {
    if Doomed(Run(steps)) {
      forall more
        ensures !Run(steps + more).update.Returned?
      {
        FailedTransferHangs(steps, more);
      }
    } else {
      var end := WaitCanEnd(steps);
      assert steps + end[|steps|..] == end;
    }
  }

  /** The run that goes on with n steps of the update thread. */
  function Updating(steps: seq<Step>, n: nat): seq<Step> {
    if n == 0 then steps else Updating(steps, n - 1) + [UpdateStep(true)]
  }

  /** The counterexample: a transfer fails while a second packet is sent, and that send waits for ever. */
  function Hanging(p: Packet, q: Packet): seq<Step> {
    Updating(Updating([Push(p)], 7) + [Push(q)], 2) + [Complete(false)]
  }

  lemma OneMoreUpdate(steps: seq<Step>, n: nat)
    ensures Run(Updating(steps, n + 1)) == UpdateThread(Run(Updating(steps, n)), true)
  {
    RunOneMore(Updating(steps, n), UpdateStep(true));
  }

  lemma FirstPush(p: Packet)
    ensures Run([Push(p)]) == State([p], false, false, false, [], Building, NotRunning, [p], [], [])
  {
    assert [Push(p)][..0] == [];
  }

  lemma FirstSent(p: Packet)
    ensures Run(Updating([Push(p)], 7)) == State([], true, false, false, [p], Building, NotRunning, [p], [p], [p])
  {
    hide Run, Updating;
    var steps := [Push(p)];
    FirstPush(p);
    assert Updating(steps, 0) == steps by {
      NoUpdate(steps);
    }
    for n := 0 to 7
      invariant Run(Updating(steps, n)) == SendState(p, n)
    {
      OneMoreUpdate(steps, n);
    }
  }

  lemma NoUpdate(steps: seq<Step>)
    ensures Updating(steps, 0) == steps
  {
  }

  /** The first send of a packet after n steps of the update thread. */
  function SendState(p: Packet, n: nat): State {
    var s := State([p], false, false, false, [], Building, NotRunning, [p], [], []);
    match n
    case 0 => s
    case 1 => s.(update := Sizing)
    case 2 => s.(update := Waiting)
    case 3 => s.(update := Looking)
    case 4 => s.(update := Popping)
    case 5 => s.(queue := [], update := Submitting(Some(p)), popped := [p])
    case 6 => State([], true, false, false, [p], Returned, NotRunning, [p], [p], [p])
    case _ => State([], true, false, false, [p], Building, NotRunning, [p], [p], [p])
  }

  lemma SendHangs(p: Packet, q: Packet)
    ensures Run(Hanging(p, q)).update.Waiting? && Doomed(Run(Hanging(p, q)))
  {
    hide Run, Updating;
    FirstSent(p);
    var first := Updating([Push(p)], 7);
    RunOneMore(first, Push(q));
    var steps := first + [Push(q)];
    NoUpdate(steps);
    OneMoreUpdate(steps, 0);
    OneMoreUpdate(steps, 1);
    RunOneMore(Updating(steps, 2), Complete(false));
  }
}
