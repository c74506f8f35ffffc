/** The controller's send side (src/tinyg-controller.js:88-140): a queue of lines waiting
    for credit, each paired with an optional response waiter, released by `_doSend` while
    the device has room; `_sendImmediate` writes one line, runs the gcode predictor on it
    and records what is now in flight.

    Waiters are the promises callers hold; they are named by number and their settlement
    is recorded in `waiters`. The serial port is the `written` log of text handed to it. */
module SendQueue {
  import opened Common
  import opened Json
  import opened Text
  import opened MachineState
  import opened Predictor
  import PredictorProperties

  /** `linesToSend` right after `_setupSerial`: the device buffers four lines. */
  const Credit: int := 4

  type WaiterId = nat

  /** How a waiter's promise ended, if it has. */
  datatype Settlement = Pending | Resolved(frame: Object) | Rejected(err: Error)

  /** One entry of `responseWaiters`: the caller's waiter, if any, and the deferred
      closure the predictor attached to the line. A line that has a closure but no caller
      waiter gets a private waiter in the source; here that is the entry with no waiter
      and an effect. */
  datatype InFlight = InFlight(waiter: Option<WaiterId>, effect: Option<Effect>)

  /** The events the controller emits that the model tracks. */
  datatype Event = Sent(line: string) | Received(line: string) | StatusUpdate | Raised(err: Error)

  datatype Controller = Controller(
    sendQueue: seq<string>,                 // lines waiting for credit
    waiterQueue: seq<Option<WaiterId>>,     // `responseWaiterQueue`
    linesToSend: int,                       // remaining send credit
    inFlight: seq<InFlight>,                // `responseWaiters`, oldest first
    waitingForSync: bool,
    waiters: map<WaiterId, Settlement>,
    nextWaiter: WaiterId,
    pendingEffects: seq<Effect>,            // closures of resolved lines not yet run
    receiveBuf: string,                     // partial received line
    written: seq<string>,                   // everything written to the serial port
    events: seq<Event>,
    machine: Machine)

  /** The constructor (lines 20-33): empty queues, no credit until the port is set up, no
      sync pending, an empty recorded report and an empty planner queue. The rest of the
      machine state is the base class's, given as `base`; no waiter has been handed out. */
  function Construct(base: Machine): (r: Controller)
    requires WellFormed(base)
    ensures Valid(r) && Aligned(r) && WaiterBook(r)
    ensures r.sendQueue == [] && r.inFlight == [] && r.linesToSend == 0 && !r.waitingForSync
    ensures r.machine.statusReport == map[]
    ensures r.machine.plannerQueueSize == JNum(0.0) && r.machine.plannerQueueFree == JNum(0.0)
  {
    Controller([], [], 0, [], false, map[], 0, [], "", [], [],
               base.(statusReport := map[], plannerQueueSize := JNum(0.0), plannerQueueFree := JNum(0.0)))
  }

  /** What every operation keeps: a well-formed machine state and closures that can run. */
  predicate Valid(c: Controller) {
    && WellFormed(c.machine)
    && (forall i :: 0 <= i < |c.inFlight| && c.inFlight[i].effect.Some? ==> Applicable(c.inFlight[i].effect.value))
    && (forall i :: 0 <= i < |c.pendingEffects| ==> Applicable(c.pendingEffects[i]))
  }

  /** Line 25: the waiter queue's indices match the send queue's. */
  predicate Aligned(c: Controller) {
    |c.sendQueue| == |c.waiterQueue|
  }

  /** Credit spent is credit in flight: lines sent but not yet answered. */
  predicate CreditBalanced(c: Controller) {
    c.linesToSend + |c.inFlight| == Credit
  }

  /** Line 109: the feed-hold, queue-flush and cycle-start characters. */
  predicate IsControl(t: string) {
    t == "!" || t == "%" || t == "~"
  }

  /** What reaches the serial port for a line: the trimmed text, plus a newline unless it
      is a control character. */
  function Wire(line: string): (r: string)
    ensures IsControl(Trim(line)) ==> r == Trim(line)
    ensures !IsControl(Trim(line)) ==> |r| == |Trim(line)| + 1 && r[..|Trim(line)|] == Trim(line) && r[|r| - 1] == '\n'
  {
    var t := Trim(line);
    if IsControl(t) then t else t + "\n"
  }

  /** The two ways of queueing a line's follow-up commands: as written (line 119, send
      queue only) and aligned (a null waiter for each follow-up, keeping line 25's promise). */
  datatype QueueMode = AsWritten | AlignedMode

  /** Line 119 as written: the follow-ups go to the front of the send queue only. */
  function UnshiftFollowUpsAsWritten(c: Controller, extra: seq<string>): (r: Controller)
    ensures r.sendQueue == extra + c.sendQueue && r.waiterQueue == c.waiterQueue
    ensures |extra| > 0 && Aligned(c) ==> !Aligned(r)
  {
    c.(sendQueue := extra + c.sendQueue)
  }

  /** Line 119 corrected: each follow-up is queued with no waiter, so every waiter still
      sits at its line's index. */
  function UnshiftFollowUps(c: Controller, extra: seq<string>): (r: Controller)
    ensures r.sendQueue == extra + c.sendQueue
    ensures |r.waiterQueue| == |extra| + |c.waiterQueue| && r.waiterQueue[|extra|..] == c.waiterQueue
    ensures forall i :: 0 <= i < |extra| ==> r.waiterQueue[i].None?
    ensures Aligned(c) ==> Aligned(r)
  {
    c.(sendQueue := extra + c.sendQueue, waiterQueue := seq(|extra|, _ => None) + c.waiterQueue)
  }

  function Unshift(c: Controller, extra: seq<string>, mode: QueueMode): Controller {
    if mode == AsWritten then UnshiftFollowUpsAsWritten(c, extra) else UnshiftFollowUps(c, extra)
  }

  /** The waiter queue once follow-ups `extra` have been put in front of the send queue. */
  function WaitersAfterUnshift(extra: seq<string>, q: seq<Option<WaiterId>>, mode: QueueMode): seq<Option<WaiterId>> {
    if mode == AsWritten then q else seq(|extra|, _ => None) + q
  }

  /** The predictor the send side consults for each line it writes (line 114): the
      deferred closure and the follow-up commands, or nothing. The engine's own is
      `GcodePredictor`. */
  type LinePredictor = string -> Option<Prediction>

  /** `_checkGCodeUpdateState` on the words the gcode parser finds in a line. */
  function GcodePredictor(gparse: string -> Option<WordMap>): LinePredictor {
    s => Predict(gparse(s))
  }

  /** A predictor whose closures can run on a well-formed state. */
  ghost predicate PredictorOk(predict: LinePredictor) {
    forall s :: predict(s).Some? && predict(s).value.effect.Some? ==> Applicable(predict(s).value.effect.value)
  }

  lemma GcodePredictorOk(gparse: string -> Option<WordMap>)
    ensures PredictorOk(GcodePredictor(gparse))
  {
    forall s | GcodePredictor(gparse)(s).Some?
      ensures GcodePredictor(gparse)(s).value.effect.Some?
      ensures Applicable(GcodePredictor(gparse)(s).value.effect.value)
    {
      PredictorProperties.PredictedEffectsApplicable(gparse(s));
    }
  }

  /** The deferred closure the predictor attaches to `t`. */
  function PredictedEffect(predict: LinePredictor, t: string): Option<Effect> {
    if predict(t).Some? then predict(t).value.effect else None
  }

  /** The follow-up commands the predictor asks for after `t`. */
  function FollowUps(predict: LinePredictor, t: string): seq<string> {
    if predict(t).Some? then predict(t).value.followUps else []
  }

  /** Lines 109-111: a control character is written bare; a waiter attached to it is
      rejected, since no response will come. */
  function SendControl(c: Controller, t: string, waiter: Option<WaiterId>): (r: Controller)
    ensures r == c.(written := c.written + [t], events := c.events + [Sent(t)],
                    waiters := if waiter.Some? then c.waiters[waiter.value := Rejected(InvalidArgument)] else c.waiters)
  {
    var waiters := if waiter.Some? then c.waiters[waiter.value := Rejected(InvalidArgument)] else c.waiters;
    c.(written := c.written + [t], waiters := waiters, events := c.events + [Sent(t)])
  }

  /** Lines 113-130: any other line has its follow-ups queued first, is written with a
      newline, spends one credit, and leaves one in-flight entry with its waiter and its
      deferred closure. */
  function SendCounted(c: Controller, t: string, waiter: Option<WaiterId>,
                       predict: LinePredictor, mode: QueueMode): (r: Controller)
    requires Valid(c) && PredictorOk(predict)
    ensures Valid(r)
    ensures r.written == c.written + [t + "\n"] && r.events == c.events + [Sent(t)]
    ensures r.machine == c.machine && r.waitingForSync == c.waitingForSync && r.nextWaiter == c.nextWaiter
    ensures r.pendingEffects == c.pendingEffects && r.receiveBuf == c.receiveBuf && r.waiters == c.waiters
    ensures r.linesToSend == c.linesToSend - 1
    ensures r.inFlight == c.inFlight + [InFlight(waiter, PredictedEffect(predict, t))]
    ensures r.sendQueue == FollowUps(predict, t) + c.sendQueue
    ensures r.waiterQueue == WaitersAfterUnshift(FollowUps(predict, t), c.waiterQueue, mode)
    ensures mode == AlignedMode && Aligned(c) ==> Aligned(r)
  {
    var p := predict(t);
    var queued := if p.Some? && |p.value.followUps| > 0 then Unshift(c, p.value.followUps, mode) else c;
    var effect := if p.Some? then p.value.effect else None;
    queued.(written := c.written + [t + "\n"],
            linesToSend := c.linesToSend - 1,
            inFlight := c.inFlight + [InFlight(waiter, effect)],
            events := c.events + [Sent(t)])
  }

  /** `_sendImmediate(line, responseWaiter)` (lines 105-133), with the corrected predictor.
      A control character is written bare, costs no credit, adds nothing in flight and
      rejects its waiter; any other line is written with a newline, costs one credit and
      adds exactly one in-flight entry carrying its waiter. */
  function SendImmediate(c: Controller, line: string, waiter: Option<WaiterId>,
                         predict: LinePredictor, mode: QueueMode): (r: Controller)
    requires Valid(c) && PredictorOk(predict)
    ensures Valid(r)
    ensures r.written == c.written + [Wire(line)]
    ensures r.events == c.events + [Sent(Trim(line))]
    ensures r.machine == c.machine && r.waitingForSync == c.waitingForSync && r.nextWaiter == c.nextWaiter
    ensures r.pendingEffects == c.pendingEffects && r.receiveBuf == c.receiveBuf
    ensures IsControl(Trim(line)) ==>
              && r.linesToSend == c.linesToSend && r.inFlight == c.inFlight
              && r.sendQueue == c.sendQueue && r.waiterQueue == c.waiterQueue
              && r.waiters == if waiter.Some? then c.waiters[waiter.value := Rejected(InvalidArgument)] else c.waiters
    ensures !IsControl(Trim(line)) ==>
              && r.linesToSend == c.linesToSend - 1
              && |r.inFlight| == |c.inFlight| + 1 && r.inFlight[..|c.inFlight|] == c.inFlight
              && r.inFlight[|c.inFlight|].waiter == waiter
              && r.waiters == c.waiters
              && r.sendQueue == FollowUps(predict, Trim(line)) + c.sendQueue
    ensures mode == AlignedMode && Aligned(c) ==> Aligned(r)
    ensures CreditBalanced(c) ==> CreditBalanced(r)
  {
    var t := Trim(line);
    if IsControl(t) then SendControl(c, t, waiter)
    else
      var r := SendCounted(c, t, waiter, predict, mode);
      assert r.inFlight[..|c.inFlight|] == c.inFlight;
      r
  }

  /** The lexicographic measure `_doSend`'s loop decreases: a credit-consuming line spends
      credit (its follow-ups may lengthen the queue), a control character shortens the
      queue. */
  function CreditLeft(c: Controller): nat {
    if c.linesToSend < 0 then 0 else c.linesToSend
  }

  /** One turn of `_doSend`'s loop (line 91): the front line is sent with the front
      waiter. It uses up credit, or, for a control character, shortens the queue. */
  function PumpTurn(c: Controller, predict: LinePredictor, mode: QueueMode): (r: Controller)
    requires Valid(c) && PredictorOk(predict) && |c.sendQueue| > 0 && c.linesToSend >= 1
    ensures Valid(r)
    ensures CreditLeft(r) < CreditLeft(c) || (CreditLeft(r) == CreditLeft(c) && |r.sendQueue| < |c.sendQueue|)
    ensures r.machine == c.machine && r.waitingForSync == c.waitingForSync && r.nextWaiter == c.nextWaiter
    ensures r.pendingEffects == c.pendingEffects && r.receiveBuf == c.receiveBuf
    ensures mode == AlignedMode && Aligned(c) ==> Aligned(r)
    ensures CreditBalanced(c) ==> CreditBalanced(r)
  {
    var waiter := if |c.waiterQueue| > 0 then c.waiterQueue[0] else None;
    var rest := c.(sendQueue := c.sendQueue[1..], waiterQueue := if |c.waiterQueue| > 0 then c.waiterQueue[1..] else []);
    SendImmediate(rest, c.sendQueue[0], waiter, predict, mode)
  }

  /** `_doSend()` (lines 88-93): nothing while waiting for a sync; otherwise lines leave the
      front of the queue, with the waiter at the front of the waiter queue, until credit or
      queue runs out. */
  function Pump(c: Controller, predict: LinePredictor, mode: QueueMode): (r: Controller)
    requires Valid(c) && PredictorOk(predict)
    ensures Valid(r)
    ensures c.waitingForSync ==> r == c
    ensures !c.waitingForSync ==> r.linesToSend < 1 || |r.sendQueue| == 0
    ensures r.machine == c.machine && r.waitingForSync == c.waitingForSync && r.nextWaiter == c.nextWaiter
    ensures r.pendingEffects == c.pendingEffects && r.receiveBuf == c.receiveBuf
    ensures mode == AlignedMode && Aligned(c) ==> Aligned(r)
    ensures CreditBalanced(c) ==> CreditBalanced(r)
    decreases CreditLeft(c), |c.sendQueue|
  {
    if c.waitingForSync || c.linesToSend < 1 || |c.sendQueue| == 0 then c
    else Pump(PumpTurn(c, predict, mode), predict, mode)
  }

  /** The waiters still to be settled, oldest first: those of the lines in flight, then
      those queued beside unsent lines. */
  function Slots(c: Controller): seq<Option<WaiterId>> {
    FlightSlots(c.inFlight) + c.waiterQueue
  }

  /** Waiter numbers are handed out once (line 97): every number registered or still
      waiting is below the next one to be handed out, and no number waits on two lines. */
  ghost predicate WaiterBook(c: Controller) {
    && (forall id :: id in c.waiters ==> id < c.nextWaiter)
    && (forall id :: Some(id) in Slots(c) ==> id < c.nextWaiter)
    && (forall id :: multiset(Slots(c))[Some(id)] <= 1)
  }

  /** `r` keeps `c`'s numbering, queues no waiter afresh, and registers only waiters that
      were registered or waiting. */
  ghost predicate Retires(c: Controller, r: Controller) {
    && r.nextWaiter == c.nextWaiter
    && (forall id :: multiset(Slots(r))[Some(id)] <= multiset(Slots(c))[Some(id)])
    && (forall id :: id in r.waiters ==> id in c.waiters || Some(id) in Slots(c))
  }

  lemma RetiresKeepsBook(c: Controller, r: Controller)
    requires Retires(c, r)
    ensures WaiterBook(c) ==> WaiterBook(r)
  {
    if WaiterBook(c) {
      forall id | Some(id) in Slots(r) ensures id < r.nextWaiter {
        assert multiset(Slots(r))[Some(id)] >= 1;
      }
    }
  }

  /** Answering the oldest line in flight retires its waiter. */
  lemma OldestRetires(c: Controller, r: Controller)
    requires |c.inFlight| > 0 && r.inFlight == c.inFlight[1..] && r.waiterQueue == c.waiterQueue
    requires r.nextWaiter == c.nextWaiter
    requires r.waiters == c.waiters || (c.inFlight[0].waiter.Some? && r.waiters.Keys == c.waiters.Keys + {c.inFlight[0].waiter.value})
    ensures Retires(c, r)
  {
    assert FlightSlots(c.inFlight) == [c.inFlight[0].waiter] + FlightSlots(r.inFlight);
    assert Slots(c) == [c.inFlight[0].waiter] + Slots(r);
  }

  /** Queueing a line with no waiter queues no waiter. */
  lemma EnqueueRetires(c: Controller, line: string)
    requires Valid(c)
    ensures Retires(c, Enqueue(c, line, None))
  {
    assert Slots(Enqueue(c, line, None)) == Slots(c) + [None];
  }

  /** A fresh waiter is a number no one holds yet. */
  lemma EnqueueWaitingKeepsBook(c: Controller, line: string)
    requires Valid(c)
    ensures WaiterBook(c) ==> WaiterBook(EnqueueWaiting(c, line)) && Some(c.nextWaiter) !in Slots(c)
  {
    var r := EnqueueWaiting(c, line);
    assert Slots(r) == Slots(c) + [Some(c.nextWaiter)];
    if WaiterBook(c) {
      assert Some(c.nextWaiter) !in Slots(c);
      forall id | Some(id) in Slots(r) ensures id < r.nextWaiter {
        if id != c.nextWaiter {
          assert Some(id) in Slots(c);
        }
      }
    }
  }

  lemma RetiresTransitive(a: Controller, b: Controller, c: Controller)
    requires Retires(a, b) && Retires(b, c)
    ensures Retires(a, c)
  {
    forall id | id in c.waiters ensures id in a.waiters || Some(id) in Slots(a) {
      if id !in b.waiters {
        assert multiset(Slots(b))[Some(id)] >= 1;
      }
    }
  }

  /** The waiters of lines in flight, oldest first. */
  function FlightSlots(f: seq<InFlight>): (r: seq<Option<WaiterId>>)
    ensures |r| == |f|
  {
    seq(|f|, i requires 0 <= i < |f| => f[i].waiter)
  }

  /** A slot sequence with no waiter in it. */
  lemma NoWaiters(n: nat, id: WaiterId)
    ensures multiset(seq(n, _ => None))[Some(id)] == 0
  {
    var s: seq<Option<WaiterId>> := seq(n, _ => None);
    assert Some(id) !in s;
  }

  /** A counted line's waiter joins the lines in flight; the follow-ups add no waiter. */
  lemma CountedSlots(c: Controller, t: string, w: Option<WaiterId>, predict: LinePredictor, mode: QueueMode)
    requires Valid(c) && PredictorOk(predict)
    ensures forall id :: multiset(Slots(SendCounted(c, t, w, predict, mode)))[Some(id)]
                         == multiset(Slots(c))[Some(id)] + multiset([w])[Some(id)]
  {
    var r := SendCounted(c, t, w, predict, mode);
    var f := FlightSlots(c.inFlight);
    assert FlightSlots(r.inFlight) == f + [w];
    forall id ensures multiset(r.waiterQueue)[Some(id)] == multiset(c.waiterQueue)[Some(id)] {
      if mode == AlignedMode {
        var extra := FollowUps(predict, t);
        assert r.waiterQueue == seq(|extra|, _ => None) + c.waiterQueue;
        NoWaiters(|extra|, id);
      }
    }
  }

  /** The front waiter is split off the waiter queue, or is no waiter when the queue is
      empty. */
  lemma FrontSlot(c: Controller, w: Option<WaiterId>, rest: seq<Option<WaiterId>>)
    requires w == (if |c.waiterQueue| > 0 then c.waiterQueue[0] else None)
    requires rest == (if |c.waiterQueue| > 0 then c.waiterQueue[1..] else [])
    ensures forall id :: multiset(Slots(c))[Some(id)]
                         == multiset(Slots(c.(waiterQueue := rest)))[Some(id)] + multiset([w])[Some(id)]
  {
    if |c.waiterQueue| > 0 {
      assert c.waiterQueue == [w] + rest;
    }
    assert Slots(c) == FlightSlots(c.inFlight) + c.waiterQueue;
  }

  /** A control character's waiter leaves the queue and is registered as rejected. */
  lemma ControlRetires(c: Controller, cut: Controller, t: string, w: Option<WaiterId>)
    requires forall id :: multiset(Slots(c))[Some(id)] == multiset(Slots(cut))[Some(id)] + multiset([w])[Some(id)]
    requires cut.nextWaiter == c.nextWaiter && cut.waiters == c.waiters
    ensures Retires(c, SendControl(cut, t, w))
  {
    var r := SendControl(cut, t, w);
    assert Slots(r) == Slots(cut);
    forall id | id in r.waiters ensures id in c.waiters || Some(id) in Slots(c) {
      if id !in c.waiters {
        assert multiset(Slots(c))[Some(id)] >= 1;
      }
    }
  }

  /** A turn of `_doSend` queues no waiter afresh and registers only the waiter it rejects. */
  lemma PumpTurnRetires(c: Controller, predict: LinePredictor, mode: QueueMode)
    requires Valid(c) && PredictorOk(predict) && |c.sendQueue| > 0 && c.linesToSend >= 1
    ensures Retires(c, PumpTurn(c, predict, mode))
  {
    var w := if |c.waiterQueue| > 0 then c.waiterQueue[0] else None;
    var rest := if |c.waiterQueue| > 0 then c.waiterQueue[1..] else [];
    var cut := c.(sendQueue := c.sendQueue[1..], waiterQueue := rest);
    FrontSlot(c, w, rest);
    assert Slots(cut) == Slots(c.(waiterQueue := rest));
    var t := Trim(c.sendQueue[0]);
    if IsControl(t) {
      assert PumpTurn(c, predict, mode) == SendControl(cut, t, w);
      ControlRetires(c, cut, t, w);
    } else {
      assert PumpTurn(c, predict, mode) == SendCounted(cut, t, w, predict, mode);
      CountedSlots(cut, t, w, predict, mode);
    }
  }

  /** `_doSend` queues no waiter afresh and registers only the waiters it rejects. */
  lemma {:induction false} PumpRetires(c: Controller, predict: LinePredictor, mode: QueueMode)
    requires Valid(c) && PredictorOk(predict)
    ensures Retires(c, Pump(c, predict, mode))
    decreases CreditLeft(c), |c.sendQueue|
  {
    if c.waitingForSync || c.linesToSend < 1 || |c.sendQueue| == 0 {
      assert Pump(c, predict, mode) == c;
    } else {
      var next := PumpTurn(c, predict, mode);
      PumpTurnRetires(c, predict, mode);
      PumpRetires(next, predict, mode);
      RetiresTransitive(c, next, Pump(next, predict, mode));
    }
  }

  /** `_doSend` keeps waiter numbers unique. */
  lemma PumpKeepsWaiterBook(c: Controller, predict: LinePredictor, mode: QueueMode)
    requires Valid(c) && PredictorOk(predict) && WaiterBook(c)
    ensures WaiterBook(Pump(c, predict, mode))
  {
    PumpRetires(c, predict, mode);
    RetiresKeepsBook(c, Pump(c, predict, mode));
  }

  /** `b` is `a` followed by more. */
  predicate Extends<T(==)>(a: seq<T>, b: seq<T>) {
    |b| >= |a| && b[..|a|] == a
  }

  lemma ExtendsTransitive<T>(a: seq<T>, b: seq<T>, c: seq<T>)
    requires Extends(a, b) && Extends(b, c)
    ensures Extends(a, c)
  {
    assert c[..|a|] == c[..|b|][..|a|];
  }

  /** `b` is `a` followed only by `sent` events. */
  predicate SentAfter(a: seq<Event>, b: seq<Event>) {
    Extends(a, b) && forall i :: |a| <= i < |b| ==> b[i].Sent?
  }

  /** `r` keeps everything `c` wrote and emitted, and announces each line it writes with
      one `sent` event and nothing else. */
  predicate OnlySends(c: Controller, r: Controller) {
    && SentAfter(c.events, r.events)
    && Extends(c.written, r.written)
    && |r.events| - |c.events| == |r.written| - |c.written|
  }

  lemma OnlySendsTransitive(a: Controller, b: Controller, c: Controller)
    requires OnlySends(a, b) && OnlySends(b, c)
    ensures OnlySends(a, c)
  {
    ExtendsTransitive(a.events, b.events, c.events);
    ExtendsTransitive(a.written, b.written, c.written);
  }

  /** One write announced by one `sent` event. */
  lemma OneSend(c: Controller, r: Controller, t: string, w: string)
    requires r.events == c.events + [Sent(t)] && r.written == c.written + [w]
    ensures OnlySends(c, r)
  {
    assert r.events[..|c.events|] == c.events;
    assert r.written[..|c.written|] == c.written;
  }

  /** A turn announces the line it writes, and nothing else, after the events already
      emitted. */
  lemma PumpTurnEvents(c: Controller, predict: LinePredictor, mode: QueueMode)
    requires Valid(c) && PredictorOk(predict) && |c.sendQueue| > 0 && c.linesToSend >= 1
    ensures PumpTurn(c, predict, mode).events == c.events + [Sent(Trim(c.sendQueue[0]))]
    ensures PumpTurn(c, predict, mode).written == c.written + [Wire(c.sendQueue[0])]
    ensures OnlySends(c, PumpTurn(c, predict, mode))
  {
    OneSend(c, PumpTurn(c, predict, mode), Trim(c.sendQueue[0]), Wire(c.sendQueue[0]));
  }

  /** Line 132: pumping keeps the events already emitted and appends one `sent` event per
      line it writes, and no other kind of event. */
  lemma {:induction false} PumpKeepsEvents(c: Controller, predict: LinePredictor, mode: QueueMode)
    requires Valid(c) && PredictorOk(predict)
    ensures OnlySends(c, Pump(c, predict, mode))
    decreases CreditLeft(c), |c.sendQueue|
  {
    if c.waitingForSync || c.linesToSend < 1 || |c.sendQueue| == 0 {
      assert Pump(c, predict, mode) == c;
      assert c.events[..|c.events|] == c.events;
      assert c.written[..|c.written|] == c.written;
    } else {
      var next := PumpTurn(c, predict, mode);
      PumpTurnEvents(c, predict, mode);
      PumpKeepsEvents(next, predict, mode);
      OnlySendsTransitive(c, next, Pump(next, predict, mode));
    }
  }

  /** Lines 98-99 and 137-138: one item pushed onto each queue. */
  function Enqueue(c: Controller, line: string, waiter: Option<WaiterId>): (r: Controller)
    requires Valid(c)
    ensures Valid(r)
    ensures r.sendQueue == c.sendQueue + [line] && r.waiterQueue == c.waiterQueue + [waiter]
    ensures Aligned(c) ==> Aligned(r)
    ensures r.linesToSend == c.linesToSend && r.inFlight == c.inFlight
    ensures r.waitingForSync == c.waitingForSync
  {
    c.(sendQueue := c.sendQueue + [line], waiterQueue := c.waiterQueue + [waiter])
  }

  /** `send(line)` (lines 136-140): queue the line with no waiter, then pump. */
  function Send(c: Controller, line: string, predict: LinePredictor): (r: Controller)
    requires Valid(c) && PredictorOk(predict)
    ensures Valid(r)
    ensures Aligned(c) ==> Aligned(r)
    ensures CreditBalanced(c) ==> CreditBalanced(r)
    ensures Retires(c, r)
    ensures WaiterBook(c) ==> WaiterBook(r)
  {
    var queued := Enqueue(c, line, None);
    EnqueueRetires(c, line);
    PumpRetires(queued, predict, AlignedMode);
    RetiresTransitive(c, queued, Pump(queued, predict, AlignedMode));
    RetiresKeepsBook(c, Pump(queued, predict, AlignedMode));
    Pump(queued, predict, AlignedMode)
  }

  /** `sendWait(line)` (lines 96-102): queue the line with a fresh pending waiter, then pump;
      the waiter's number is returned. */
  function SendWait(c: Controller, line: string, predict: LinePredictor): (r: (Controller, WaiterId))
    requires Valid(c) && PredictorOk(predict)
    ensures Valid(r.0)
    ensures r.1 == c.nextWaiter && r.0.nextWaiter == c.nextWaiter + 1
    ensures Aligned(c) ==> Aligned(r.0)
    ensures CreditBalanced(c) ==> CreditBalanced(r.0)
    ensures WaiterBook(c) ==> WaiterBook(r.0) && r.1 !in c.waiters && Some(r.1) !in Slots(c)
  {
    var queued := EnqueueWaiting(c, line);
    EnqueueWaitingKeepsBook(c, line);
    PumpRetires(queued, predict, AlignedMode);
    RetiresKeepsBook(queued, Pump(queued, predict, AlignedMode));
    (Pump(queued, predict, AlignedMode), c.nextWaiter)
  }

  /** Lines 97-100: a fresh pending waiter is registered and queued beside the line. */
  function EnqueueWaiting(c: Controller, line: string): (r: Controller)
    requires Valid(c)
    ensures Valid(r)
    ensures r.sendQueue == c.sendQueue + [line] && r.waiterQueue == c.waiterQueue + [Some(c.nextWaiter)]
    ensures r.waiters == c.waiters[c.nextWaiter := Pending] && r.nextWaiter == c.nextWaiter + 1
    ensures r.written == c.written && r.inFlight == c.inFlight
    ensures r.linesToSend == c.linesToSend && r.waitingForSync == c.waitingForSync
  {
    Enqueue(c.(waiters := c.waiters[c.nextWaiter := Pending], nextWaiter := c.nextWaiter + 1), line, Some(c.nextWaiter))
  }
}

/** Pumping order, and the waiter misalignment of line 119. */
module SendQueueProperties {
  import opened Common
  import opened Json
  import opened Text
  import opened MachineState
  import opened Predictor
  import opened SendQueue
  import PredictorProperties

  /** What the port receives for a run of queued lines, in order. */
  function Wires(q: seq<string>): (r: seq<string>)
    ensures |r| == |q|
    decreases |q|
  {
    if |q| == 0 then [] else [Wire(q[0])] + Wires(q[1..])
  }

  /** No queued line makes the predictor queue follow-up commands. */
  predicate NoFollowUps(predict: LinePredictor, q: seq<string>) {
    forall i :: 0 <= i < |q| ==> FollowUps(predict, Trim(q[i])) == []
  }

  /** No queued line is a control character. */
  predicate AllCounted(q: seq<string>) {
    forall i :: 0 <= i < |q| ==> !IsControl(Trim(q[i]))
  }

  /** A turn writes the front line, and leaves the rest queued behind any follow-ups. */
  lemma PumpTurnFacts(c: Controller, predict: LinePredictor, mode: QueueMode)
    requires Valid(c) && PredictorOk(predict) && |c.sendQueue| > 0 && c.linesToSend >= 1
    ensures !c.waitingForSync ==> Pump(c, predict, mode) == Pump(PumpTurn(c, predict, mode), predict, mode)
    ensures PumpTurn(c, predict, mode).written == c.written + [Wire(c.sendQueue[0])]
    ensures !IsControl(Trim(c.sendQueue[0])) ==>
              PumpTurn(c, predict, mode).sendQueue == FollowUps(predict, Trim(c.sendQueue[0])) + c.sendQueue[1..]
              && PumpTurn(c, predict, mode).linesToSend == c.linesToSend - 1
              && |PumpTurn(c, predict, mode).inFlight| == |c.inFlight| + 1
    ensures IsControl(Trim(c.sendQueue[0])) ==> PumpTurn(c, predict, mode).sendQueue == c.sendQueue[1..]
    ensures PumpTurn(c, predict, mode).waitingForSync == c.waitingForSync
  {
  }

  /** A counted turn queues the waiters of the follow-ups as the mode says, and records the
      line's closure in flight. */
  lemma PumpTurnQueues(c: Controller, predict: LinePredictor, mode: QueueMode)
    requires Valid(c) && PredictorOk(predict) && |c.sendQueue| > 0 && c.linesToSend >= 1 && !IsControl(Trim(c.sendQueue[0]))
    ensures var t := Trim(c.sendQueue[0]);
            var front := if |c.waiterQueue| > 0 then c.waiterQueue[0] else None;
            var rest := if |c.waiterQueue| > 0 then c.waiterQueue[1..] else [];
            && PumpTurn(c, predict, mode).waiterQueue == WaitersAfterUnshift(FollowUps(predict, t), rest, mode)
            && PumpTurn(c, predict, mode).inFlight == c.inFlight + [InFlight(front, PredictedEffect(predict, t))]
  {
  }

  /** A queue suffix inherits the absence of follow-ups and of control characters. */
  lemma TailKeepsProperties(predict: LinePredictor, q: seq<string>)
    requires |q| > 0
    ensures NoFollowUps(predict, q) ==> NoFollowUps(predict, q[1..])
    ensures AllCounted(q) ==> AllCounted(q[1..])
  {
    forall i | 0 <= i < |q| - 1
      ensures q[1..][i] == q[i + 1]
    {
    }
  }

  /** The port received the front of queue `q` after `w0`, and the rest `rq` is still
      queued. */
  predicate FifoOutcome(q: seq<string>, w0: seq<string>, rq: seq<string>, rw: seq<string>) {
    |rq| <= |q| && rq == q[|q| - |rq|..] && rw == w0 + Wires(q[..|q| - |rq|])
  }

  /** The sequence arithmetic of one FIFO step: sending the front line and then a prefix
      of the rest is sending a longer prefix. */
  lemma FifoStep(q: seq<string>, w0: seq<string>, w1: seq<string>, rq: seq<string>, rw: seq<string>)
    requires |q| > 0 && w1 == w0 + [Wire(q[0])]
    requires FifoOutcome(q[1..], w1, rq, rw)
    ensures FifoOutcome(q, w0, rq, rw)
  {
    var n := |q| - |rq|;
    assert q[1..][n - 1..] == q[n..];
    WiresFront(q, n);
    AppendAssoc(w0, [Wire(q[0])], Wires(q[1..][..n - 1]));
  }

  /** Sending the first `n` lines is sending the front one, then the next `n - 1`. */
  lemma WiresFront(q: seq<string>, n: nat)
    requires 1 <= n <= |q|
    ensures Wires(q[..n]) == [Wire(q[0])] + Wires(q[1..][..n - 1])
  {
    var p := q[..n];
    assert p[0] == q[0];
    assert p[1..] == q[1..][..n - 1];
  }

  lemma AppendAssoc(a: seq<string>, b: seq<string>, c: seq<string>)
    ensures (a + b) + c == a + (b + c)
  {
  }

  /** A FIFO outcome that sent one line sent the front one. */
  lemma FifoOne(q: seq<string>, w0: seq<string>, rq: seq<string>, rw: seq<string>)
    requires |q| > 0 && |rq| == |q| - 1 && FifoOutcome(q, w0, rq, rw)
    ensures rq == q[1..] && rw == w0 + [Wire(q[0])]
  {
    assert q[..1] == [q[0]];
    assert Wires([q[0]]) == [Wire(q[0])];
  }

  /** `_doSend` transmits in queue order: what it writes is exactly the front of the queue,
      and what stays queued is the rest. */
  lemma {:induction false} PumpIsFifo(c: Controller, predict: LinePredictor, mode: QueueMode)
    requires Valid(c) && PredictorOk(predict) && NoFollowUps(predict, c.sendQueue)
    ensures FifoOutcome(c.sendQueue, c.written, Pump(c, predict, mode).sendQueue, Pump(c, predict, mode).written)
    decreases CreditLeft(c), |c.sendQueue|
  {
    var q := c.sendQueue;
    if c.waitingForSync || c.linesToSend < 1 || |q| == 0 {
      assert Pump(c, predict, mode) == c;
      assert q[..0] == [];
    } else {
      var next := PumpTurn(c, predict, mode);
      PumpTurnFacts(c, predict, mode);
      assert FollowUps(predict, Trim(q[0])) == [];
      assert next.sendQueue == q[1..];
      TailKeepsProperties(predict, q);
      PumpIsFifo(next, predict, mode);
      var r := Pump(next, predict, mode);
      FifoStep(q, c.written, next.written, r.sendQueue, r.written);
    }
  }

  /** `send(line)` keeps the FIFO order: the port receives the front of the queue with
      `line` at its back, and the rest stays queued. */
  lemma SendIsFifo(c: Controller, line: string, predict: LinePredictor)
    requires Valid(c) && PredictorOk(predict) && NoFollowUps(predict, c.sendQueue + [line])
    ensures FifoOutcome(c.sendQueue + [line], c.written, Send(c, line, predict).sendQueue, Send(c, line, predict).written)
  {
    PumpIsFifo(Enqueue(c, line, None), predict, AlignedMode);
  }

  /** `sendWait(line)` keeps the FIFO order too. */
  lemma SendWaitIsFifo(c: Controller, line: string, predict: LinePredictor)
    requires Valid(c) && PredictorOk(predict) && NoFollowUps(predict, c.sendQueue + [line])
    ensures var r := SendWait(c, line, predict).0;
            FifoOutcome(c.sendQueue + [line], c.written, r.sendQueue, r.written)
  {
    PumpIsFifo(EnqueueWaiting(c, line), predict, AlignedMode);
  }

  /** With only credit-consuming lines and no follow-ups, `_doSend` sends exactly as many
      lines as there is credit for. */
  lemma {:induction false} PumpSendsUpToCredit(c: Controller, predict: LinePredictor, mode: QueueMode)
    requires Valid(c) && PredictorOk(predict) && !c.waitingForSync && c.linesToSend >= 0
    requires NoFollowUps(predict, c.sendQueue) && AllCounted(c.sendQueue)
    ensures var r := Pump(c, predict, mode);
            var k := if c.linesToSend < |c.sendQueue| then c.linesToSend else |c.sendQueue|;
            && |r.sendQueue| == |c.sendQueue| - k
            && r.linesToSend == c.linesToSend - k
            && |r.inFlight| == |c.inFlight| + k
    decreases CreditLeft(c), |c.sendQueue|
  {
    var q := c.sendQueue;
    if !(c.linesToSend < 1 || |q| == 0) {
      var next := PumpTurn(c, predict, mode);
      PumpTurnFacts(c, predict, mode);
      assert !IsControl(Trim(q[0]));
      assert FollowUps(predict, Trim(q[0])) == [];
      assert next.sendQueue == q[1..];
      TailKeepsProperties(predict, q);
      PumpSendsUpToCredit(next, predict, mode);
    }
  }

  /** `_doSend` never spends credit it does not have. */
  lemma {:induction false} PumpNeverOverdraws(c: Controller, predict: LinePredictor, mode: QueueMode)
    requires Valid(c) && PredictorOk(predict) && c.linesToSend >= 0
    ensures Pump(c, predict, mode).linesToSend >= 0
    decreases CreditLeft(c), |c.sendQueue|
  {
    if !(c.waitingForSync || c.linesToSend < 1 || |c.sendQueue| == 0) {
      var next := PumpTurn(c, predict, mode);
      PumpTurnFacts(c, predict, mode);
      assert next.linesToSend >= c.linesToSend - 1;
      PumpNeverOverdraws(next, predict, mode);
    }
  }

  /** With the credit balanced, at most four lines are ever in flight. */
  lemma AtMostFourInFlight(c: Controller, predict: LinePredictor, mode: QueueMode)
    requires Valid(c) && PredictorOk(predict) && c.linesToSend >= 0 && CreditBalanced(c)
    ensures |Pump(c, predict, mode).inFlight| <= Credit
  {
    PumpNeverOverdraws(c, predict, mode);
  }

  /** While a sync is awaited, `send` and `sendWait` only queue: nothing is written, and
      the waiter of `sendWait` stays pending at the back of the waiter queue. */
  lemma SendWhileSyncing(c: Controller, line: string, predict: LinePredictor)
    requires Valid(c) && PredictorOk(predict) && c.waitingForSync
    ensures Send(c, line, predict).sendQueue == c.sendQueue + [line]
    ensures Send(c, line, predict).waiterQueue == c.waiterQueue + [None]
    ensures Send(c, line, predict).written == c.written
    ensures var (r, id) := SendWait(c, line, predict);
            && r.sendQueue == c.sendQueue + [line] && r.waiterQueue == c.waiterQueue + [Some(id)]
            && r.written == c.written && id in r.waiters && r.waiters[id] == Pending
  {
  }

  /** With credit to spare and nothing queued, `sendWait` writes its line at once and the
      line goes in flight carrying the new waiter, still pending. */
  lemma SendWaitWritesWhenFree(c: Controller, line: string, predict: LinePredictor)
    requires Valid(c) && PredictorOk(predict) && !c.waitingForSync && Aligned(c)
    requires |c.sendQueue| == 0 && c.linesToSend >= 1
    requires !IsControl(Trim(line)) && FollowUps(predict, Trim(line)) == []
    ensures var (r, id) := SendWait(c, line, predict);
            && r.written == c.written + [Trim(line) + "\n"]
            && r.inFlight == c.inFlight + [InFlight(Some(id), PredictedEffect(predict, Trim(line)))]
            && r.sendQueue == [] && r.linesToSend == c.linesToSend - 1
            && id in r.waiters && r.waiters[id] == Pending
  {
    PumpSingleLine(EnqueueWaiting(c, line), predict);
    WireCounted(line);
  }

  /** A counted line goes out trimmed, with a newline. */
  lemma WireCounted(line: string)
    requires !IsControl(Trim(line))
    ensures Wire(line) == Trim(line) + "\n"
  {
  }

  /** Pumping a queue of one counted line with credit to spare sends it, with its waiter. */
  lemma PumpSingleLine(c: Controller, predict: LinePredictor)
    requires Valid(c) && PredictorOk(predict) && !c.waitingForSync && c.linesToSend >= 1
    requires |c.sendQueue| == 1 && |c.waiterQueue| == 1
    requires !IsControl(Trim(c.sendQueue[0])) && FollowUps(predict, Trim(c.sendQueue[0])) == []
    ensures var r := Pump(c, predict, AlignedMode);
            && r.written == c.written + [Wire(c.sendQueue[0])]
            && r.inFlight == c.inFlight + [InFlight(c.waiterQueue[0], PredictedEffect(predict, Trim(c.sendQueue[0])))]
            && r.sendQueue == [] && r.linesToSend == c.linesToSend - 1 && r.waiters == c.waiters
  {
    PumpTurnFacts(c, predict, AlignedMode);
    PumpTurnQueues(c, predict, AlignedMode);
    var next := PumpTurn(c, predict, AlignedMode);
    assert next.sendQueue == [];
    assert Pump(next, predict, AlignedMode) == next;
  }

  /** A string with no white space at either end trims to itself. */
  lemma TrimPlain(s: string)
    requires |s| > 0 && !IsSpace(s[0]) && !IsSpace(s[|s| - 1])
    ensures Trim(s) == s
  {
  }

  /** A line sent as it is, with nothing predicted for it. */
  predicate Inert(predict: LinePredictor, line: string) {
    Trim(line) == line && !IsControl(line) && predict(line).None?
  }

  /** A line the predictor reads as a program end, sent as it is, whose two follow-ups
      `fs` start with an inert line. */
  predicate EndsProgram(predict: LinePredictor, line: string, fs: seq<string>) {
    && Trim(line) == line && !IsControl(line)
    && predict(line) == Some(Prediction(Some(EndProgram), fs))
    && |fs| == 2 && Inert(predict, fs[0])
  }

  /** The scenario of the finding: a program end `line` (no waiter) queued ahead of `next`
      (waiter 7), and credit for two lines. */
  function EndScenario(m: Machine, line: string, next: string): Controller {
    Controller([line, next], [None, Some(7)], 2, [], false, map[7 := Pending], 8, [], "", [], [], m)
  }

  /** The first turn of the scenario sends the program end and queues its follow-ups. */
  lemma ScenarioFirstTurn(m: Machine, predict: LinePredictor, line: string, fs: seq<string>, next: string, mode: QueueMode)
    requires WellFormed(m) && PredictorOk(predict) && EndsProgram(predict, line, fs)
    ensures var t1 := PumpTurn(EndScenario(m, line, next), predict, mode);
            && t1.written == [line + "\n"] && t1.linesToSend == 1 && !t1.waitingForSync
            && t1.sendQueue == fs + [next]
            && t1.waiterQueue == WaitersAfterUnshift(fs, [Some(7)], mode)
            && t1.inFlight == [InFlight(None, Some(EndProgram))]
            && Pump(EndScenario(m, line, next), predict, mode) == Pump(t1, predict, mode)
  {
    var c := EndScenario(m, line, next);
    PumpTurnFacts(c, predict, mode);
    PumpTurnQueues(c, predict, mode);
    assert c.sendQueue[1..] == [next];
  }

  /** The second turn sends the first follow-up with whatever waiter is at the front, and
      uses up the last credit. */
  lemma ScenarioSecondTurn(t1: Controller, predict: LinePredictor, line: string, fs: seq<string>, next: string, mode: QueueMode)
    requires Valid(t1) && PredictorOk(predict) && EndsProgram(predict, line, fs)
    requires t1.written == [line + "\n"] && t1.linesToSend == 1 && !t1.waitingForSync
    requires t1.sendQueue == fs + [next] && |t1.waiterQueue| > 0
    ensures var t2 := PumpTurn(t1, predict, mode);
            && t2.written == [line + "\n", fs[0] + "\n"]
            && t2.inFlight == t1.inFlight + [InFlight(t1.waiterQueue[0], None)]
            && t2.sendQueue == [fs[1], next]
            && t2.waiterQueue == t1.waiterQueue[1..]
            && Pump(t1, predict, mode) == t2
  {
    PumpTurnFacts(t1, predict, mode);
    PumpTurnQueues(t1, predict, mode);
    var t2 := PumpTurn(t1, predict, mode);
    assert t1.sendQueue[1..] == [fs[1], next];
    assert Pump(t2, predict, mode) == t2;
  }

  /** After both turns: the program end and its first follow-up have been written, and the
      follow-up carries whichever waiter the mode left at the front of the waiter queue. */
  lemma ScenarioOutcome(m: Machine, predict: LinePredictor, line: string, fs: seq<string>, next: string, mode: QueueMode)
    requires WellFormed(m) && PredictorOk(predict) && EndsProgram(predict, line, fs)
    ensures var q := WaitersAfterUnshift(fs, [Some(7)], mode);
            var r := Pump(EndScenario(m, line, next), predict, mode);
            && |q| > 0
            && r.written == [line + "\n", fs[0] + "\n"]
            && r.inFlight == [InFlight(None, Some(EndProgram)), InFlight(q[0], None)]
            && r.sendQueue == [fs[1], next] && r.waiterQueue == q[1..]
  {
    ScenarioFirstTurn(m, predict, line, fs, next, mode);
    var t1 := PumpTurn(EndScenario(m, line, next), predict, mode);
    assert |t1.waiterQueue| > 0;
    ScenarioSecondTurn(t1, predict, line, fs, next, mode);
    PairIsConcat(InFlight(None, Some(EndProgram)), InFlight(t1.waiterQueue[0], None));
  }

  /** Line 119 as written hands a caller's waiter to the wrong line: after a program end is
      sent, its two follow-ups go in front of the queue without waiters, so the waiter
      queued for the line after it is attached to the first follow-up instead. */
  lemma MisalignedWaiterCounterexample(m: Machine, predict: LinePredictor, line: string, fs: seq<string>, next: string)
    requires WellFormed(m) && PredictorOk(predict) && EndsProgram(predict, line, fs)
    ensures var r := Pump(EndScenario(m, line, next), predict, AsWritten);
            && r.written == [line + "\n", fs[0] + "\n"]
            && r.inFlight == [InFlight(None, Some(EndProgram)), InFlight(Some(7), None)]
            && r.sendQueue == [fs[1], next] && r.waiterQueue == []
  {
    ScenarioOutcome(m, predict, line, fs, next, AsWritten);
    assert WaitersAfterUnshift(fs, [Some(7)], AsWritten) == [Some(7)];
  }

  /** With the follow-ups queued with null waiters, waiter 7 stays with its own line. */
  lemma AlignedWaiterScenario(m: Machine, predict: LinePredictor, line: string, fs: seq<string>, next: string)
    requires WellFormed(m) && PredictorOk(predict) && EndsProgram(predict, line, fs)
    ensures var r := Pump(EndScenario(m, line, next), predict, AlignedMode);
            && r.written == [line + "\n", fs[0] + "\n"]
            && r.inFlight == [InFlight(None, Some(EndProgram)), InFlight(None, None)]
            && r.sendQueue == [fs[1], next] && r.waiterQueue == [None, Some(7)]
  {
    ScenarioOutcome(m, predict, line, fs, next, AlignedMode);
    AlignedWaitersOfTwo(fs);
  }

  /** Two follow-ups queued with null waiters in front of waiter 7. */
  lemma AlignedWaitersOfTwo(fs: seq<string>)
    requires |fs| == 2
    ensures var q := WaitersAfterUnshift(fs, [Some(7)], AlignedMode);
            q[0] == None && q[1..] == [None, Some(7)]
  {
    var q := WaitersAfterUnshift(fs, [Some(7)], AlignedMode);
    assert q == [None, None, Some(7)];
  }

  lemma PairIsConcat<T>(a: T, b: T)
    ensures [a] + [b] == [a, b]
  {
  }

  /** A gcode parser that finds words only in `M2`. */
  function M2Only(s: string): Option<WordMap> {
    if s == "M2" then Some(map['M' := 2.0]) else None
  }

  /** With such a parser, `M2` is a program end and the first follow-up is inert, so the
      scenarios happen with the engine's own predictor. */
  lemma M2ScenarioApplies()
    ensures PredictorOk(GcodePredictor(M2Only))
    ensures EndsProgram(GcodePredictor(M2Only), "M2", EndFollowUps)
  {
    GcodePredictorOk(M2Only);
    M2IsProgramEnd();
    CoorIsInert();
  }

  lemma M2IsProgramEnd()
    ensures Trim("M2") == "M2" && !IsControl("M2")
    ensures GcodePredictor(M2Only)("M2") == Some(Prediction(Some(EndProgram), EndFollowUps))
  {
    TrimM2();
    M2NotControl();
    PredictM2();
  }

  lemma TrimM2() ensures Trim("M2") == "M2" { TrimPlain("M2"); }

  lemma M2NotControl() ensures !IsControl("M2") { }

  lemma PredictM2()
    ensures GcodePredictor(M2Only)("M2") == Some(Prediction(Some(EndProgram), EndFollowUps))
  {
    assert M2Only("M2") == Some(map['M' := 2.0]);
    PredictorProperties.ProgramEndMapping(map['M' := 2.0]);
    assert GcodePredictor(M2Only)("M2") == Predict(M2Only("M2"));
  }

  lemma CoorIsInert()
    ensures Inert(GcodePredictor(M2Only), EndFollowUps[0])
  {
    TrimCoor();
    CoorNotControl();
    PredictCoor();
  }

  lemma TrimCoor() ensures Trim(EndFollowUps[0]) == EndFollowUps[0] { TrimPlain(EndFollowUps[0]); }

  lemma CoorNotControl() ensures !IsControl(EndFollowUps[0]) { }

  lemma PredictCoor()
    ensures GcodePredictor(M2Only)(EndFollowUps[0]).None?
  {
    assert |EndFollowUps[0]| != 2;
    assert M2Only(EndFollowUps[0]) == None;
    assert GcodePredictor(M2Only)(EndFollowUps[0]) == Predict(M2Only(EndFollowUps[0]));
  }
}
