/** The receive side of the controller (src/tinyg-controller.js:294-343 and the `data`
    handler at 540-562): every complete line is parsed as a JSON frame, its status fields
    are gathered and merged into the machine state, and an `r` frame answers the oldest
    line in flight, restores one credit and lets the send queue move again.

    Promise callbacks do not run while a read is being handled: the closure of a line
    acknowledged during a read runs once the whole read has been handled. Here such
    closures wait in `pendingEffects` until `FlushEffects`. */
module Receive {
  import opened Common
  import opened Json
  import opened MachineState
  import opened Predictor
  import opened StatusReport
  import opened SendQueue
  import opened Framer

  /** `JSON.parse` on a line that starts with `{`: an object, or nothing when it throws. */
  type FrameParser = string -> Option<Object>

  /** The controller after one step, and the error the step threw, if any. */
  datatype Handled = Handled(c: Controller, err: Option<Error>)

  /** `data.f ? data.f[1] : 0` (line 327). Only arrays, objects and strings have an element
      `1`; any other truthy `f` gives undefined. */
  function StatusCode(data: Object): (code: JVal)
    ensures !Truthy(Get(data, "f")) ==> code == JNum(0.0)
    ensures Get(data, "f").JArr? && |Get(data, "f").items| > 1 ==> code == Get(data, "f").items[1]
    ensures Get(data, "f").JObj? ==> code == Get(Get(data, "f").props, "1")
  {
    var f := Get(data, "f");
    if !Truthy(f) then JNum(0.0)
    else match f
      case JArr(items) => if |items| > 1 then items[1] else JUndefined
      case JObj(props) => Get(props, "1")
      case JStr(s) => if |s| > 1 then JStr([s[1]]) else JUndefined
      case _ => JUndefined
  }

  /** Line 333: the device accepted the line when the status code is exactly the number 0. */
  predicate Acked(data: Object) {
    StrictEq(StatusCode(data), JNum(0.0))
  }

  /** The field a status variable `k` takes from a frame, by the precedence of lines 298-323:
      a queue report inside `r` beats the line number inside `r`, which beats the status
      report inside `r`, which beats a tracked key echoed inside `r`, then a tracked key at
      the top level, then a top-level queue report, then the top-level status report. */
  function Winning(data: Object, report: Object, k: string): Option<JVal> {
    var inner := Props(Get(data, "r"));
    if k == "qr" && "qr" in inner then Some(inner["qr"])
    else if k == "n" && "n" in inner then Some(inner["n"])
    else if k in Props(Get(inner, "sr")) then Some(Props(Get(inner, "sr"))[k])
    else if k in report && k in inner then Some(inner[k])
    else if k in report && k in data then Some(data[k])
    else if k == "qr" && "qr" in data then Some(data["qr"])
    else if k in Props(Get(data, "sr")) then Some(Props(Get(data, "sr"))[k])
    else None
  }

  /** How an answer settles the waiter of the line it answers (lines 333-337). */
  function Settle(data: Object): Settlement {
    if Acked(data) then Resolved(data) else Rejected(StatusCodeError(StatusCode(data)))
  }

  /** `statusVars` (lines 298-323), built as the source builds it: each later write
      overrides an earlier one. */
  function StatusVars(data: Object, report: Object): (sv: Object) {
    EchoedVars(data, report) + ReplyVars(data)
  }

  /** Lines 299-310: the top-level status and queue reports, then each key of the recorded
      report echoed at the top level or inside `r`. */
  function EchoedVars(data: Object, report: Object): Object {
    var inner := Props(Get(data, "r"));
    var top := Props(Get(data, "sr"));
    var qr := if "qr" in data then map["qr" := data["qr"]] else map[];
    var echoed := map k | k in report && k in data :: data[k];
    var echoedInner := map k | k in report && k in inner :: inner[k];
    top + qr + echoed + echoedInner
  }

  /** Lines 311-323: the status report, line number and queue report inside `r`. */
  function ReplyVars(data: Object): Object {
    var inner := Props(Get(data, "r"));
    var innerSr := Props(Get(inner, "sr"));
    var n := if "n" in inner then map["n" := inner["n"]] else map[];
    var innerQr := if "qr" in inner then map["qr" := inner["qr"]] else map[];
    innerSr + n + innerQr
  }

  /** Lines 327-338: one credit comes back, the oldest line in flight (if any) is answered,
      its waiter is resolved with the frame or rejected with the status code, and its
      closure is kept to run only when the line was accepted. */
  function Correlate(c: Controller, data: Object): (r: Controller)
    requires Valid(c)
    ensures Valid(r)
    ensures r.linesToSend == c.linesToSend + 1
    ensures r.inFlight == if |c.inFlight| > 0 then c.inFlight[1..] else []
    ensures |c.inFlight| > 0 && c.inFlight[0].waiter.Some? ==>
              r.waiters == c.waiters[c.inFlight[0].waiter.value := Settle(data)]
    ensures |c.inFlight| == 0 || c.inFlight[0].waiter.None? ==> r.waiters == c.waiters
    ensures |c.inFlight| > 0 && Acked(data) && c.inFlight[0].effect.Some? ==>
              r.pendingEffects == c.pendingEffects + [c.inFlight[0].effect.value]
    ensures !(|c.inFlight| > 0 && Acked(data) && c.inFlight[0].effect.Some?) ==> r.pendingEffects == c.pendingEffects
    ensures r.sendQueue == c.sendQueue && r.waiterQueue == c.waiterQueue && r.machine == c.machine
    ensures r.waitingForSync == c.waitingForSync && r.nextWaiter == c.nextWaiter && r.receiveBuf == c.receiveBuf
    ensures r.written == c.written && r.events == c.events
  {
    var credited := c.(linesToSend := c.linesToSend + 1);
    if |c.inFlight| == 0 then credited
    else
      var head := c.inFlight[0];
      var settled := if head.waiter.None? then c.waiters else c.waiters[head.waiter.value := Settle(data)];
      var effects := if Acked(data) && head.effect.Some? then c.pendingEffects + [head.effect.value] else c.pendingEffects;
      credited.(inFlight := c.inFlight[1..], waiters := settled, pendingEffects := effects)
  }

  /** An answer queues no waiter and registers only the one it settles, so waiter numbers
      stay unique. */
  lemma CorrelateRetires(c: Controller, data: Object)
    requires Valid(c)
    ensures Retires(c, Correlate(c, data))
    ensures WaiterBook(c) ==> WaiterBook(Correlate(c, data))
  {
    var r := Correlate(c, data);
    if |c.inFlight| == 0 {
      assert Slots(r) == Slots(c);
    } else {
      OldestRetires(c, r);
    }
    RetiresKeepsBook(c, r);
  }

  /** The status merge of lines 325 and 341, with its notification. */
  function MergeFrame(c: Controller, sv: Object): (r: Handled)
    requires Valid(c)
    ensures Valid(r.c)
    ensures r.err == Merge(c.machine, sv, true).err
    ensures r.c.machine == Merge(c.machine, sv, true).machine
    ensures r.c.events == c.events + if Merge(c.machine, sv, true).notified then [StatusUpdate] else []
    ensures r.c == c.(machine := r.c.machine, events := r.c.events)
    ensures Extends(c.events, r.c.events)
  {
    var merged := Merge(c.machine, sv, true);
    var events := if merged.notified then c.events + [StatusUpdate] else c.events;
    assert events[..|c.events|] == c.events;
    Handled(c.(machine := merged.machine, events := events), merged.err)
  }

  /** Lines 327-339 for an `r` frame whose status merged: correlate it, then pump. */
  function AnswerFrame(c: Controller, data: Object, predict: LinePredictor): (r: Controller)
    requires Valid(c) && PredictorOk(predict)
    ensures Valid(r)
    ensures !c.waitingForSync ==> r.linesToSend < 1 || |r.sendQueue| == 0
    ensures Aligned(c) ==> Aligned(r)
    ensures CreditBalanced(c) && |c.inFlight| > 0 ==> CreditBalanced(r)
    ensures Extends(c.events, r.events)
    ensures r.machine == c.machine && r.receiveBuf == c.receiveBuf
  {
    PumpKeepsEvents(Correlate(c, data), predict, AlignedMode);
    Pump(Correlate(c, data), predict, AlignedMode)
  }

  /** A frame whose `in` tests can run (lines 298-342): merge its status fields; a failed
      merge throws before the frame is correlated; an `r` frame is then correlated and the
      send queue pumped. */
  function MergeAndAnswer(c: Controller, data: Object, predict: LinePredictor): (r: Handled)
    requires Valid(c) && PredictorOk(predict)
    ensures Valid(r.c)
    ensures r.err == Merge(c.machine, StatusVars(data, c.machine.statusReport), true).err
    ensures r.err.Some? || "r" !in data ==>
              && r.c.sendQueue == c.sendQueue && r.c.waiterQueue == c.waiterQueue
              && r.c.linesToSend == c.linesToSend && r.c.inFlight == c.inFlight
              && r.c.waiters == c.waiters && r.c.pendingEffects == c.pendingEffects && r.c.written == c.written
    ensures r.err.None? && "r" in data && !c.waitingForSync ==> r.c.linesToSend < 1 || |r.c.sendQueue| == 0
    ensures Aligned(c) ==> Aligned(r.c)
    ensures CreditBalanced(c) && (|c.inFlight| > 0 || r.err.Some? || "r" !in data) ==> CreditBalanced(r.c)
    ensures Extends(c.events, r.c.events)
    ensures r.c.receiveBuf == c.receiveBuf
  {
    var merged := MergeFrame(c, StatusVars(data, c.machine.statusReport));
    if merged.err.Some? || "r" !in data then merged
    else
      var answered := AnswerFrame(merged.c, data, predict);
      ExtendsTransitive(c.events, merged.c.events, answered.events);
      Handled(answered, None)
  }

  /** A parsed frame (lines 298-342). A primitive `r` makes the `in` tests throw before
      anything changes. */
  function HandleFrame(c: Controller, data: Object, predict: LinePredictor): (r: Handled)
    requires Valid(c) && PredictorOk(predict)
    ensures Valid(r.c)
    ensures r.err == Some(TypeError) <==> "r" in data && !IsComposite(data["r"])
    ensures "r" in data && !IsComposite(data["r"]) ==> r.c == c
    ensures !("r" in data && !IsComposite(data["r"])) ==> r == MergeAndAnswer(c, data, predict)
    ensures Aligned(c) ==> Aligned(r.c)
    ensures Extends(c.events, r.c.events)
    ensures r.err.None? || r.err.value.TypeError? || r.err.value.UnknownMachineState?
    ensures r.c.receiveBuf == c.receiveBuf
  {
    if "r" in data && !IsComposite(data["r"]) then
      assert c.events[..|c.events|] == c.events;
      Handled(c, Some(TypeError))
    else MergeAndAnswer(c, data, predict)
  }

  /** `_handleReceiveSerialDataLine(line)` (lines 294-343): announce the line, refuse a line
      that does not start with `{`, parse it, then handle the frame. */
  function HandleLine(c: Controller, line: string, parse: FrameParser, predict: LinePredictor): (r: Handled)
    requires Valid(c) && PredictorOk(predict)
    ensures Valid(r.c)
    ensures |r.c.events| > |c.events| && r.c.events[|c.events|] == Received(line)
    ensures r.err == Some(ParseError) <==> |line| == 0 || line[0] != '{'
    ensures r.err == Some(SyntaxError) <==> |line| > 0 && line[0] == '{' && parse(line).None?
    ensures r.err == Some(ParseError) || r.err == Some(SyntaxError) ==> r.c == c.(events := c.events + [Received(line)])
    ensures Aligned(c) ==> Aligned(r.c)
    ensures r.c.receiveBuf == c.receiveBuf
    ensures Extends(c.events, r.c.events)
  {
    var announced := c.(events := c.events + [Received(line)]);
    assert announced.events[..|c.events|] == c.events;
    if |line| == 0 || line[0] != '{' then Handled(announced, Some(ParseError))
    else if parse(line).None? then Handled(announced, Some(SyntaxError))
    else
      var r := HandleFrame(announced, parse(line).value, predict);
      ExtendsKeepsAt(announced.events, r.c.events, |c.events|);
      ExtendsTransitive(c.events, announced.events, r.c.events);
      r
  }

  lemma ExtendsKeepsAt<T>(a: seq<T>, b: seq<T>, i: nat)
    requires Extends(a, b) && i < |a|
    ensures b[i] == a[i]
  {
    assert b[..|a|][i] == b[i];
  }

  /** The handler loop of lines 554-561: each line is handled in turn; an error it throws
      is emitted and the loop goes on. */
  function HandleLines(c: Controller, lines: seq<string>, parse: FrameParser, predict: LinePredictor): (r: Controller)
    requires Valid(c) && PredictorOk(predict)
    ensures Valid(r)
    ensures Aligned(c) ==> Aligned(r)
    ensures |r.events| >= |c.events| + |lines|
    ensures Extends(c.events, r.events)
    ensures r.receiveBuf == c.receiveBuf
    decreases |lines|
  {
    if |lines| == 0 then
      assert c.events[..|c.events|] == c.events;
      c
    else
      var next := LineStep(c, lines[0], parse, predict);
      var r := HandleLines(next, lines[1..], parse, predict);
      ExtendsTransitive(c.events, next.events, r.events);
      r
  }

  /** One turn of the handler loop: the line is handled and an error it threw is emitted. */
  function LineStep(c: Controller, line: string, parse: FrameParser, predict: LinePredictor): (r: Controller)
    requires Valid(c) && PredictorOk(predict)
    ensures Valid(r)
    ensures Aligned(c) ==> Aligned(r)
    ensures |r.events| > |c.events| && r.events[|c.events|] == Received(line)
    ensures Extends(c.events, r.events)
    ensures HandleLine(c, line, parse, predict).err.Some? ==>
              r.events[|r.events| - 1] == Raised(HandleLine(c, line, parse, predict).err.value)
    ensures r.receiveBuf == c.receiveBuf
  {
    var h := HandleLine(c, line, parse, predict);
    if h.err.Some? then
      var r := h.c.(events := h.c.events + [Raised(h.err.value)]);
      assert r.events[|c.events|] == h.c.events[|c.events|];
      assert r.events[..|h.c.events|] == h.c.events;
      ExtendsTransitive(c.events, h.c.events, r.events);
      r
    else h.c
  }

  /** The closures of acknowledged lines, run in acknowledgement order once the read has
      been handled; each but a coolant change announces a status update. */
  function FlushEffects(c: Controller): (r: Controller)
    requires Valid(c)
    ensures Valid(r) && r.pendingEffects == []
    ensures |r.events| <= |c.events| + |c.pendingEffects|
    ensures r.events == c.events + Notices(c.pendingEffects)
    ensures r == c.(machine := r.machine, events := r.events, pendingEffects := [])
    ensures |c.pendingEffects| == 0 ==> r == c
    ensures |c.pendingEffects| == 1 ==> r.machine == ApplyEffect(c.machine, c.pendingEffects[0]).machine
    ensures r.sendQueue == c.sendQueue && r.waiterQueue == c.waiterQueue
    ensures r.linesToSend == c.linesToSend && r.inFlight == c.inFlight && r.waiters == c.waiters
    ensures r.machine.statusReport == c.machine.statusReport && r.machine.flags == c.machine.flags
    ensures r.receiveBuf == c.receiveBuf
    decreases |c.pendingEffects|
  {
    if |c.pendingEffects| == 0 then c
    else
      var applied := ApplyEffect(c.machine, c.pendingEffects[0]);
      var events := if applied.notified then c.events + [StatusUpdate] else c.events;
      var r := FlushEffects(c.(machine := applied.machine, events := events, pendingEffects := c.pendingEffects[1..]));
      assert r.events == c.events + Notices(c.pendingEffects) by {
        assert Notices(c.pendingEffects) == (if applied.notified then [StatusUpdate] else []) + Notices(c.pendingEffects[1..]);
      }
      r
  }

  /** What running closures `es` announces: one status update for each closure but a
      coolant change. */
  function Notices(es: seq<Effect>): (r: seq<Event>)
    ensures |r| <= |es|
    ensures forall i :: 0 <= i < |r| ==> r[i] == StatusUpdate
    decreases |es|
  {
    if |es| == 0 then [] else (if es[0].SetCoolant? then [] else [StatusUpdate]) + Notices(es[1..])
  }

  /** The `data` handler (lines 540-562): frame the read against the carried-over buffer,
      keep the new partial line, handle the complete lines, then run the closures their
      acknowledgements released. */
  function ReceiveData(c: Controller, chunk: string, parse: FrameParser, predict: LinePredictor): (r: Controller)
    requires Valid(c) && PredictorOk(predict) && c.pendingEffects == []
    ensures Valid(r) && r.pendingEffects == []
    ensures r.receiveBuf == FrameChunk(c.receiveBuf, chunk).rest
    ensures Aligned(c) ==> Aligned(r)
  {
    var framed := FrameChunk(c.receiveBuf, chunk);
    var handled := HandleLines(c.(receiveBuf := framed.rest), framed.lines, parse, predict);
    FlushEffects(handled)
  }
}
