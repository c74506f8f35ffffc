/** What the receive side promises: answers settle the lines in flight oldest first, each
    answer returns exactly the credit its line took, a closure runs only for an accepted
    line, status fields take the documented precedence, and a line that throws does not
    stop the lines after it. */
module ReceiveProperties {
  import opened Common
  import opened Json
  import opened MachineState
  import opened Predictor
  import opened StatusReport
  import opened SendQueue
  import opened Receive
  import opened Text
  import opened Framer
  import SendQueueProperties

  /** No two of these lines carry the same waiter. */
  predicate DistinctWaiters(f: seq<InFlight>) {
    forall i, j :: 0 <= i < j < |f| && f[i].waiter.Some? ==> f[j].waiter != f[i].waiter
  }

  /** An element found at two places is counted twice. */
  lemma TwiceCounted<T>(s: seq<T>, i: nat, j: nat)
    requires i < j < |s| && s[i] == s[j]
    ensures multiset(s)[s[i]] >= 2
  {
    assert s == s[..j] + [s[j]] + s[j + 1..];
    assert s[..j][i] == s[i];
  }

  /** With waiter numbers handed out once, the lines in flight carry distinct waiters. */
  lemma BookedWaitersDistinct(c: Controller, n: nat)
    requires WaiterBook(c) && n <= |c.inFlight|
    ensures DistinctWaiters(c.inFlight[..n])
  {
    var s := Slots(c);
    forall i, j | 0 <= i < j < n && c.inFlight[..n][i].waiter.Some?
      ensures c.inFlight[..n][j].waiter != c.inFlight[..n][i].waiter
    {
      assert s[i] == c.inFlight[i].waiter && s[j] == c.inFlight[j].waiter;
      if s[i] == s[j] {
        TwiceCounted(s, i, j);
      }
    }
  }

  /** None of these lines carries waiter `id`. */
  predicate Unanswered(f: seq<InFlight>, id: WaiterId) {
    forall j :: 0 <= j < |f| ==> f[j].waiter != Some(id)
  }

  /** The two waiter tables agree on `id`. */
  predicate SameAt(a: map<WaiterId, Settlement>, b: map<WaiterId, Settlement>, id: WaiterId) {
    (id in a <==> id in b) && (id in a ==> a[id] == b[id])
  }

  /** The answers `ds` correlated in turn, as consecutive `r` frames are. */
  function CorrelateAll(c: Controller, ds: seq<Object>): (r: Controller)
    requires Valid(c)
    ensures Valid(r)
    decreases |ds|
  {
    if |ds| == 0 then c else CorrelateAll(Correlate(c, ds[0]), ds[1..])
  }

  /** The closures kept when the lines `f` are answered by `ds`: those of the accepted
      lines, in order. */
  function Kept(f: seq<InFlight>, ds: seq<Object>): seq<Effect>
    requires |f| == |ds|
    decreases |f|
  {
    if |f| == 0 then []
    else (if Acked(ds[0]) && f[0].effect.Some? then [f[0].effect.value] else []) + Kept(f[1..], ds[1..])
  }

  /** Every answer returns one credit and pops the oldest line. */
  lemma {:induction false} AnswersPopInOrder(c: Controller, ds: seq<Object>)
    requires Valid(c) && |ds| <= |c.inFlight|
    ensures CorrelateAll(c, ds).linesToSend == c.linesToSend + |ds|
    ensures CorrelateAll(c, ds).inFlight == c.inFlight[|ds|..]
    decreases |ds|
  {
    if |ds| == 0 {
      assert c.inFlight[0..] == c.inFlight;
    } else {
      var c1 := Correlate(c, ds[0]);
      assert CorrelateAll(c, ds) == CorrelateAll(c1, ds[1..]);
      AnswersPopInOrder(c1, ds[1..]);
      assert c1.inFlight[|ds| - 1..] == c.inFlight[|ds|..];
    }
  }

  /** Only accepted lines keep their closures, in the order the lines were sent. */
  lemma {:induction false} AnswersKeepAcceptedClosures(c: Controller, ds: seq<Object>)
    requires Valid(c) && |ds| <= |c.inFlight|
    ensures CorrelateAll(c, ds).pendingEffects == c.pendingEffects + Kept(c.inFlight[..|ds|], ds)
    decreases |ds|
  {
    var f := c.inFlight[..|ds|];
    if |ds| == 0 {
      assert c.pendingEffects + [] == c.pendingEffects;
    } else {
      var c1 := Correlate(c, ds[0]);
      var f1 := c1.inFlight[..|ds| - 1];
      var head := if Acked(ds[0]) && f[0].effect.Some? then [f[0].effect.value] else [];
      assert f1 == f[1..];
      assert c1.pendingEffects == c.pendingEffects + head;
      assert CorrelateAll(c, ds) == CorrelateAll(c1, ds[1..]);
      AnswersKeepAcceptedClosures(c1, ds[1..]);
      assert Kept(f, ds) == head + Kept(f1, ds[1..]);
      ConcatAssoc(c.pendingEffects, head, Kept(f1, ds[1..]));
    }
  }

  lemma ConcatAssoc<T>(a: seq<T>, b: seq<T>, c: seq<T>)
    ensures a + (b + c) == (a + b) + c
  {
  }

  lemma TailUnanswered(f: seq<InFlight>, id: WaiterId)
    requires |f| > 0 && (Unanswered(f, id) || (DistinctWaiters(f) && f[0].waiter == Some(id)))
    ensures Unanswered(f[1..], id)
  {
    forall j | 0 <= j < |f| - 1 ensures f[1..][j].waiter != Some(id) {
      assert f[1..][j] == f[j + 1];
    }
  }

  /** The i-th answer settles the waiter of the i-th oldest line in flight, and no other
      waiter changes. */
  lemma {:induction false} AnswersSettleWaiters(c: Controller, ds: seq<Object>)
    requires Valid(c) && |ds| <= |c.inFlight| && DistinctWaiters(c.inFlight[..|ds|])
    ensures forall i :: 0 <= i < |ds| && c.inFlight[i].waiter.Some? ==>
              && c.inFlight[i].waiter.value in CorrelateAll(c, ds).waiters
              && CorrelateAll(c, ds).waiters[c.inFlight[i].waiter.value] == Settle(ds[i])
    ensures forall id :: Unanswered(c.inFlight[..|ds|], id) ==> SameAt(CorrelateAll(c, ds).waiters, c.waiters, id)
    decreases |ds|
  {
    var f := c.inFlight[..|ds|];
    if |ds| > 0 {
      var c1 := Correlate(c, ds[0]);
      var f1 := c1.inFlight[..|ds| - 1];
      assert f1 == f[1..];
      assert DistinctWaiters(f1) by {
        forall i, j | 0 <= i < j < |f1| && f1[i].waiter.Some?
          ensures f1[j].waiter != f1[i].waiter
        {
          assert f1[i] == f[i + 1] && f1[j] == f[j + 1];
        }
      }
      AnswersSettleWaiters(c1, ds[1..]);
      var r := CorrelateAll(c1, ds[1..]);
      assert r == CorrelateAll(c, ds);
      forall i | 0 <= i < |ds| && c.inFlight[i].waiter.Some?
        ensures c.inFlight[i].waiter.value in r.waiters && r.waiters[c.inFlight[i].waiter.value] == Settle(ds[i])
      {
        if i == 0 {
          assert f[0] == c.inFlight[0];
          TailUnanswered(f, c.inFlight[0].waiter.value);
        } else {
          assert c1.inFlight[i - 1] == c.inFlight[i] && ds[1..][i - 1] == ds[i];
        }
      }
      forall id: WaiterId | Unanswered(f, id)
        ensures SameAt(r.waiters, c.waiters, id)
      {
        assert f[0] == c.inFlight[0];
        TailUnanswered(f, id);
      }
    }
  }

  /** Responses are matched to lines first in, first out (lines 329-338): the i-th answer
      settles the waiter of the i-th oldest line in flight, every answer returns one
      credit, only accepted lines keep their closures, and no other waiter changes. */
  lemma AnswersSettleInOrder(c: Controller, ds: seq<Object>)
    requires Valid(c) && |ds| <= |c.inFlight| && DistinctWaiters(c.inFlight[..|ds|])
    ensures CorrelateAll(c, ds).linesToSend == c.linesToSend + |ds|
    ensures CorrelateAll(c, ds).inFlight == c.inFlight[|ds|..]
    ensures CorrelateAll(c, ds).pendingEffects == c.pendingEffects + Kept(c.inFlight[..|ds|], ds)
    ensures forall i :: 0 <= i < |ds| && c.inFlight[i].waiter.Some? ==>
              && c.inFlight[i].waiter.value in CorrelateAll(c, ds).waiters
              && CorrelateAll(c, ds).waiters[c.inFlight[i].waiter.value] == Settle(ds[i])
    ensures forall id :: Unanswered(c.inFlight[..|ds|], id) ==> SameAt(CorrelateAll(c, ds).waiters, c.waiters, id)
  {
    AnswersPopInOrder(c, ds);
    AnswersKeepAcceptedClosures(c, ds);
    AnswersSettleWaiters(c, ds);
  }

  /** An answer to a line in flight returns the credit the line took (lines 129 and 329). */
  lemma AnswerConservesCredit(c: Controller, data: Object)
    requires Valid(c) && CreditBalanced(c) && |c.inFlight| > 0
    ensures CreditBalanced(Correlate(c, data))
    ensures Correlate(c, data).linesToSend <= Credit
  {
  }

  /** An `r` frame with nothing in flight still adds a credit (line 329 is unconditional):
      from a balanced, idle controller it leaves five credits and four lines can no longer
      account for them. */
  lemma UnsolicitedAnswerOverCredits(c: Controller, data: Object)
    requires Valid(c) && CreditBalanced(c) && |c.inFlight| == 0
    ensures Correlate(c, data).linesToSend == Credit + 1
    ensures !CreditBalanced(Correlate(c, data))
    ensures Correlate(c, data).waiters == c.waiters
  {
  }

  /** With all credit spent and lines waiting, an answer that merges cleanly releases
      exactly the next queued line: the credit it returns is spent again at once. */
  lemma AnswerReleasesOneLine(c: Controller, data: Object, predict: LinePredictor)
    requires Valid(c) && PredictorOk(predict) && !c.waitingForSync
    requires c.linesToSend == 0 && |c.inFlight| > 0 && |c.sendQueue| > 0
    requires SendQueueProperties.NoFollowUps(predict, c.sendQueue) && SendQueueProperties.AllCounted(c.sendQueue)
    requires "r" in data && IsComposite(data["r"])
    requires Merge(c.machine, StatusVars(data, c.machine.statusReport), true).err.None?
    ensures var r := HandleFrame(c, data, predict);
            && r.err.None?
            && r.c.written == c.written + [Wire(c.sendQueue[0])]
            && r.c.sendQueue == c.sendQueue[1..]
            && r.c.linesToSend == 0
            && |r.c.inFlight| == |c.inFlight|
  {
    var answered := CleanAnswer(c, data, predict);
    SendQueueProperties.PumpSendsUpToCredit(answered, predict, AlignedMode);
    SendQueueProperties.PumpIsFifo(answered, predict, AlignedMode);
    var r := Pump(answered, predict, AlignedMode);
    SendQueueProperties.FifoOne(c.sendQueue, c.written, r.sendQueue, r.written);
  }

  /** The controller a cleanly merged answer leaves before the queue is pumped: one
      credit back, one line fewer in flight, the queue and the port untouched. */
  lemma CleanAnswer(c: Controller, data: Object, predict: LinePredictor) returns (answered: Controller)
    requires Valid(c) && PredictorOk(predict)
    requires "r" in data && IsComposite(data["r"])
    requires Merge(c.machine, StatusVars(data, c.machine.statusReport), true).err.None?
    ensures Valid(answered) && answered.waitingForSync == c.waitingForSync
    ensures HandleFrame(c, data, predict) == Handled(Pump(answered, predict, AlignedMode), None)
    ensures answered.linesToSend == c.linesToSend + 1
    ensures |c.inFlight| > 0 ==> |answered.inFlight| == |c.inFlight| - 1
    ensures answered.sendQueue == c.sendQueue && answered.written == c.written
  {
    var merged := MergeFrame(c, StatusVars(data, c.machine.statusReport));
    answered := Correlate(merged.c, data);
  }

  /** A rejected line's closure never runs: the closure survives only an accepted answer. */
  lemma RejectedLineDropsClosure(c: Controller, data: Object)
    requires Valid(c) && |c.inFlight| > 0 && !Acked(data)
    ensures Correlate(c, data).pendingEffects == c.pendingEffects
    ensures c.inFlight[0].waiter.Some? ==>
              Correlate(c, data).waiters[c.inFlight[0].waiter.value] == Rejected(StatusCodeError(StatusCode(data)))
  {
  }

  /** A status merge that throws (an unknown `stat`) does so before the frame is
      correlated: the line stays in flight, its waiter pending, and no credit returns. */
  lemma FailedMergeLeavesLineInFlight(c: Controller, data: Object, predict: LinePredictor)
    requires Valid(c) && PredictorOk(predict) && "r" in data && IsComposite(data["r"])
    requires Merge(c.machine, StatusVars(data, c.machine.statusReport), true).err.Some?
    ensures HandleFrame(c, data, predict).err == Some(UnknownMachineState(StatusVars(data, c.machine.statusReport)["stat"]))
    ensures HandleFrame(c, data, predict).c.inFlight == c.inFlight
    ensures HandleFrame(c, data, predict).c.waiters == c.waiters
    ensures HandleFrame(c, data, predict).c.linesToSend == c.linesToSend
  {
  }

  /** A footer `[1, 0, 8]` accepts the line; the frame itself resolves the waiter. */
  lemma ZeroStatusAccepts()
    ensures var d := map["r" := JObj(map[]), "f" := JArr([JNum(1.0), JNum(0.0), JNum(8.0)])];
            Acked(d) && Settle(d) == Resolved(d)
  {
  }

  /** A footer `[1, 20, 8]` rejects the line with the status code 20. */
  lemma NonzeroStatusRejects()
    ensures var d := map["r" := JObj(map[]), "f" := JArr([JNum(1.0), JNum(20.0), JNum(8.0)])];
            !Acked(d) && Settle(d) == Rejected(StatusCodeError(JNum(20.0)))
  {
  }

  /** A frame without a footer counts as accepted: the status code defaults to 0. */
  lemma MissingFooterAccepts()
    ensures var d := map["r" := JObj(map[])];
            StatusCode(d) == JNum(0.0) && Acked(d)
  {
  }

  /** A status code that is the string "0" is not the number 0, so the line is rejected. */
  lemma TextualZeroRejects()
    ensures var d := map["r" := JObj(map[]), "f" := JArr([JNum(1.0), JStr("0")])];
            !Acked(d)
  {
  }

  /** `statusVars` gives each key the value of the highest-precedence source that has it,
      and has no key none of them has. */
  lemma StatusVarsByPrecedence(data: Object, report: Object, k: string)
    ensures k in StatusVars(data, report) <==> Winning(data, report, k).Some?
    ensures k in StatusVars(data, report) ==> StatusVars(data, report)[k] == Winning(data, report, k).value
  {
    EchoedByPrecedence(data, report, k);
    ReplyByPrecedence(data, k);
    Over(EchoedVars(data, report), ReplyVars(data), k);
  }

  /** The last three branches of `Winning`: the keys echoed inside `r`, then at the top
      level, then the top-level reports. */
  function EchoWinner(data: Object, report: Object, k: string): Option<JVal> {
    var inner := Props(Get(data, "r"));
    if k in report && k in inner then Some(inner[k])
    else if k in report && k in data then Some(data[k])
    else if k == "qr" && "qr" in data then Some(data["qr"])
    else if k in Props(Get(data, "sr")) then Some(Props(Get(data, "sr"))[k])
    else None
  }

  /** The first three branches of `Winning`: what `r` itself reports. */
  function ReplyWinner(data: Object, k: string): Option<JVal> {
    var inner := Props(Get(data, "r"));
    if k == "qr" && "qr" in inner then Some(inner["qr"])
    else if k == "n" && "n" in inner then Some(inner["n"])
    else if k in Props(Get(inner, "sr")) then Some(Props(Get(inner, "sr"))[k])
    else None
  }

  lemma EchoedByPrecedence(data: Object, report: Object, k: string)
    ensures k in EchoedVars(data, report) <==> EchoWinner(data, report, k).Some?
    ensures k in EchoedVars(data, report) ==> EchoedVars(data, report)[k] == EchoWinner(data, report, k).value
  {
    var inner := Props(Get(data, "r"));
    var top := Props(Get(data, "sr"));
    var qr: Object := if "qr" in data then map["qr" := data["qr"]] else map[];
    var echoed := map k | k in report && k in data :: data[k];
    var echoedInner := map k | k in report && k in inner :: inner[k];
    Over(top, qr, k);
    Over(top + qr, echoed, k);
    Over(top + qr + echoed, echoedInner, k);
  }

  lemma ReplyByPrecedence(data: Object, k: string)
    ensures k in ReplyVars(data) <==> ReplyWinner(data, k).Some?
    ensures k in ReplyVars(data) ==> ReplyVars(data)[k] == ReplyWinner(data, k).value
  {
    var inner := Props(Get(data, "r"));
    var innerSr := Props(Get(inner, "sr"));
    var n: Object := if "n" in inner then map["n" := inner["n"]] else map[];
    var innerQr: Object := if "qr" in inner then map["qr" := inner["qr"]] else map[];
    Over(innerSr, n, k);
    Over(innerSr + n, innerQr, k);
  }

  /** A later write to a key overrides an earlier one. */
  lemma Over(a: Object, b: Object, k: string)
    ensures k in a + b <==> k in a || k in b
    ensures k in a + b ==> (a + b)[k] == if k in b then b[k] else a[k]
  {
  }

  /** The lines `ls` are announced in order, at positions `from` onwards. */
  ghost predicate AnnouncedFrom(events: seq<Event>, from: nat, ls: seq<string>)
    decreases |ls|
  {
    |ls| == 0 || exists j :: from <= j < |events| && events[j] == Received(ls[0]) && AnnouncedFrom(events, j + 1, ls[1..])
  }

  lemma AnnouncedFromEarlier(events: seq<Event>, f1: nat, f2: nat, ls: seq<string>)
    requires f1 <= f2 && AnnouncedFrom(events, f2, ls)
    ensures AnnouncedFrom(events, f1, ls)
  {
    if |ls| > 0 {
      var j :| f2 <= j < |events| && events[j] == Received(ls[0]) && AnnouncedFrom(events, j + 1, ls[1..]);
      assert f1 <= j;
    }
  }

  /** Lines 554-561: every complete line is handled, in order, whatever the lines before
      it threw. */
  lemma {:induction false} EveryLineHandled(c: Controller, lines: seq<string>, parse: FrameParser, predict: LinePredictor)
    requires Valid(c) && PredictorOk(predict)
    ensures AnnouncedFrom(HandleLines(c, lines, parse, predict).events, |c.events|, lines)
    decreases |lines|
  {
    if |lines| > 0 {
      var next := LineStep(c, lines[0], parse, predict);
      var r := HandleLines(next, lines[1..], parse, predict);
      assert r == HandleLines(c, lines, parse, predict);
      EveryLineHandled(next, lines[1..], parse, predict);
      ExtendsKeepsAt(next.events, r.events, |c.events|);
      AnnouncedFromEarlier(r.events, |c.events| + 1, |next.events|, lines[1..]);
    }
  }

  /** A line that is not a JSON object is reported as a parse error, and the next line
      is still handled. */
  lemma BadLineDoesNotStopNext(c: Controller, bad: string, next: string, parse: FrameParser, predict: LinePredictor)
    requires Valid(c) && PredictorOk(predict) && (|bad| == 0 || bad[0] != '{')
    ensures var r := HandleLines(c, [bad, next], parse, predict);
            && |r.events| > |c.events| + 2
            && r.events[|c.events|] == Received(bad)
            && r.events[|c.events| + 1] == Raised(ParseError)
            && r.events[|c.events| + 2] == Received(next)
  {
    var s1 := LineStep(c, bad, parse, predict);
    BadLineStep(c, bad, parse, predict);
    var s2 := LineStep(s1, next, parse, predict);
    HandleTwoLines(c, bad, next, parse, predict);
    ExtendsKeepsAt(s1.events, s2.events, |c.events|);
    ExtendsKeepsAt(s1.events, s2.events, |c.events| + 1);
  }

  /** A line that is not a JSON object adds its announcement and the parse error, and
      nothing else. */
  lemma BadLineStep(c: Controller, bad: string, parse: FrameParser, predict: LinePredictor)
    requires Valid(c) && PredictorOk(predict) && (|bad| == 0 || bad[0] != '{')
    ensures LineStep(c, bad, parse, predict).events == c.events + [Received(bad), Raised(ParseError)]
  {
  }

  /** Two lines are handled one turn after the other. */
  lemma HandleTwoLines(c: Controller, a: string, b: string, parse: FrameParser, predict: LinePredictor)
    requires Valid(c) && PredictorOk(predict)
    ensures HandleLines(c, [a, b], parse, predict)
            == LineStep(LineStep(c, a, parse, predict), b, parse, predict)
  {
    var s1 := LineStep(c, a, parse, predict);
    assert [a, b][1..] == [b];
    assert HandleLines(c, [a, b], parse, predict) == HandleLines(s1, [b], parse, predict);
    OneLineTurn(s1, b, parse, predict);
  }

  /** Every closure in `es` can run on a well-formed state. */
  predicate Runnable(es: seq<Effect>) {
    forall i :: 0 <= i < |es| ==> Applicable(es[i])
  }

  /** Running the closures `es1 + es2` is running `es1` and then `es2` on the state the
      first ones left: each closure sees the effect of every closure acknowledged before
      it. */
  lemma {:induction false} FlushInOrder(c: Controller, es1: seq<Effect>, es2: seq<Effect>)
    requires Valid(c) && c.pendingEffects == [] && Runnable(es1) && Runnable(es2)
    ensures FlushEffects(c.(pendingEffects := es1 + es2))
            == FlushEffects(FlushEffects(c.(pendingEffects := es1)).(pendingEffects := es2))
    decreases |es1|
  {
    if |es1| == 0 {
      assert es1 + es2 == es2;
    } else {
      var applied := ApplyEffect(c.machine, es1[0]);
      var events := if applied.notified then c.events + [StatusUpdate] else c.events;
      var c1 := c.(machine := applied.machine, events := events);
      assert (es1 + es2)[0] == es1[0] && (es1 + es2)[1..] == es1[1..] + es2;
      assert Runnable(es1[1..]) by {
        forall i | 0 <= i < |es1| - 1 ensures Applicable(es1[1..][i]) {
          assert es1[1..][i] == es1[i + 1];
        }
      }
      FlushInOrder(c1, es1[1..], es2);
    }
  }

  /** A frame whose status merges cleanly and that answers the oldest line in flight
      keeps that line's closure, to run later, exactly when the line was accepted. */
  lemma AnsweredFrame(c: Controller, data: Object, predict: LinePredictor)
    requires Valid(c) && PredictorOk(predict) && c.pendingEffects == [] && |c.inFlight| > 0
    requires "r" in data && Merge(c.machine, StatusVars(data, c.machine.statusReport), true).err.None?
    ensures var h := MergeAndAnswer(c, data, predict);
            && h.err.None?
            && h.c.machine == Merge(c.machine, StatusVars(data, c.machine.statusReport), true).machine
            && h.c.pendingEffects == if Acked(data) && c.inFlight[0].effect.Some? then [c.inFlight[0].effect.value] else []
  {
    var merged := MergeFrame(c, StatusVars(data, c.machine.statusReport));
    assert merged.c.inFlight == c.inFlight && merged.c.pendingEffects == [];
    var answered := AnswerFrame(merged.c, data, predict);
    assert MergeAndAnswer(c, data, predict) == Handled(answered, None);
  }

  /** A handler loop over one line is one turn. */
  lemma OneLineTurn(c: Controller, t: string, parse: FrameParser, predict: LinePredictor)
    requires Valid(c) && PredictorOk(predict)
    ensures HandleLines(c, [t], parse, predict) == LineStep(c, t, parse, predict)
  {
    assert [t][1..] == [];
    assert HandleLines(c, [t], parse, predict) == HandleLines(LineStep(c, t, parse, predict), [], parse, predict);
  }

  /** The turn of an `r` line whose status merges cleanly is that frame's merge and answer. */
  lemma AnsweredLineTurn(c: Controller, t: string, data: Object, parse: FrameParser, predict: LinePredictor)
    requires Valid(c) && PredictorOk(predict) && c.pendingEffects == [] && |c.inFlight| > 0
    requires |t| > 0 && t[0] == '{' && parse(t) == Some(data) && "r" in data && IsComposite(data["r"])
    requires Merge(c.machine, StatusVars(data, c.machine.statusReport), true).err.None?
    ensures var r := LineStep(c, t, parse, predict);
            && r.machine == Merge(c.machine, StatusVars(data, c.machine.statusReport), true).machine
            && r.pendingEffects == if Acked(data) && c.inFlight[0].effect.Some? then [c.inFlight[0].effect.value] else []
  {
    var announced := c.(events := c.events + [Received(t)]);
    AnsweredFrame(announced, data, predict);
    assert HandleLine(c, t, parse, predict) == MergeAndAnswer(announced, data, predict);
  }

  /** End to end through the `data` handler: a read whose one line answers the oldest line
      in flight, whose closure selects inches (the closure a G20 line carries), leaves the
      machine in inches when the line was accepted and leaves the units alone when it was
      refused. The frame must not report `unit` or `stat` itself. */
  lemma AnswerRunsClosure(c: Controller, line: string, data: Object, parse: FrameParser, predict: LinePredictor)
    requires Valid(c) && PredictorOk(predict) && c.pendingEffects == [] && c.receiveBuf == ""
    requires |c.inFlight| > 0 && c.inFlight[0].effect == Some(SetUnits(Inches))
    requires NoBreak(line) && |Trim(line)| > 0 && Trim(line)[0] == '{' && parse(Trim(line)) == Some(data)
    requires "r" in data && IsComposite(data["r"])
    requires "stat" !in StatusVars(data, c.machine.statusReport) && "unit" !in StatusVars(data, c.machine.statusReport)
    ensures Acked(data) ==> ReceiveData(c, line + "\n", parse, predict).machine.units == Inches
    ensures !Acked(data) ==> ReceiveData(c, line + "\n", parse, predict).machine.units == c.machine.units
  {
    var t := Trim(line);
    var sv := StatusVars(data, c.machine.statusReport);
    MergeKeepsUnits(c.machine, sv);
    AnsweredLineTurn(c, t, data, parse, predict);
    OneLineReceived(c, line, parse, predict);
    var h := LineStep(c, t, parse, predict);
    if Acked(data) {
      FlushSelectsInches(h);
    } else {
      assert FlushEffects(h) == h;
    }
  }

  /** Running the inches closure alone selects inches. */
  lemma FlushSelectsInches(h: Controller)
    requires Valid(h) && h.pendingEffects == [SetUnits(Inches)]
    ensures FlushEffects(h).machine.units == Inches
  {
    assert FlushEffects(h).machine == ApplyEffect(h.machine, SetUnits(Inches)).machine;
  }

  /** The `data` handler on a read of one line, with nothing carried over, is one turn of
      the handler loop followed by the closures it released. */
  lemma OneLineReceived(c: Controller, line: string, parse: FrameParser, predict: LinePredictor)
    requires Valid(c) && PredictorOk(predict) && c.pendingEffects == [] && c.receiveBuf == ""
    requires NoBreak(line) && |Trim(line)| > 0
    ensures ReceiveData(c, line + "\n", parse, predict) == FlushEffects(LineStep(c, Trim(line), parse, predict))
  {
    TrimEmptyIffAllSpace(line);
    OneLineRead(line);
    assert c.(receiveBuf := "") == c;
    OneLineTurn(c, Trim(line), parse, predict);
  }

  /** A merge whose report has no `unit` keeps the units. */
  lemma MergeKeepsUnits(m: Machine, sv: Object)
    requires WellFormed(m) && "unit" !in sv
    ensures Merge(m, sv, true).machine.units == m.units
  {
  }

  /** The example of the G20 case: the answer `{"r":{},"f":[1,0,8]}` to the G20 line in
      flight selects inches. */
  lemma G20AnswerSelectsInches(c: Controller, line: string, parse: FrameParser, predict: LinePredictor)
    requires Valid(c) && PredictorOk(predict) && c.pendingEffects == [] && c.receiveBuf == ""
    requires |c.inFlight| > 0 && c.inFlight[0].effect == Some(SetUnits(Inches))
    requires NoBreak(line) && |Trim(line)| > 0 && Trim(line)[0] == '{'
    requires parse(Trim(line)) == Some(map["r" := JObj(map[]), "f" := JArr([JNum(1.0), JNum(0.0), JNum(8.0)])])
    ensures ReceiveData(c, line + "\n", parse, predict).machine.units == Inches
  {
    var data := map["r" := JObj(map[]), "f" := JArr([JNum(1.0), JNum(0.0), JNum(8.0)])];
    var sv := StatusVars(data, c.machine.statusReport);
    assert "stat" !in sv && "unit" !in sv by {
      assert Props(Get(data, "sr")) == map[];
      assert Props(Get(data, "r")) == map[];
    }
    assert Acked(data) by {
      assert StatusCode(data) == JNum(0.0);
    }
    AnswerRunsClosure(c, line, data, parse, predict);
  }
}
