/** Connection set-up (src/tinyg-controller.js:461-538): the variable list `_fetchStatus`
    asks for, the collection of the answers into one status report, the command sequence
    of `_initMachine`, and the state `_setupSerial` starts the controller from. */
module Init {
  import opened Common
  import opened Json
  import opened MachineState
  import opened StatusReport
  import opened SendQueue
  import opened Sync

  /** The machine-wide variables fetched first (line 464). */
  const ScalarVars: seq<string> := ["coor", "stat", "unit", "feed", "dist", "n", "qr"]

  /** The prefixes of the per-axis variables: position, G92 offset, G28 and G30 stored
      positions, homed flag, and the G54 … G59 offsets. */
  const AxisPrefixes: set<string> := {"mpo", "g92", "g28", "g30", "hom", "g54", "g55", "g56", "g57", "g58", "g59"}

  /** Lines 467-470: the variables fetched for one axis, in request order. */
  function AxisVars(axis: nat): (r: seq<string>)
    requires axis < AxisCount
    ensures |r| == 11
  {
    [AxisKey("mpo", axis), AxisKey("g92", axis), AxisKey("g28", axis), AxisKey("g30", axis), AxisKey("hom", axis)]
    + seq(CoordSystemCount, csys requires 0 <= csys < CoordSystemCount => AxisKey(CoordSysPrefix(csys), axis))
  }

  /** The per-axis variables of the first `n` axes, axis by axis. */
  function AxesVars(n: nat): (r: seq<string>)
    requires n <= AxisCount
    ensures |r| == 11 * n
    decreases n
  {
    if n == 0 then [] else AxesVars(n - 1) + AxisVars(n - 1)
  }

  /** `_fetchStatus(null)`'s variable list (lines 463-472). */
  function FetchVars(): (r: seq<string>)
    ensures |r| == |ScalarVars| + 11 * AxisCount
    ensures r[..|ScalarVars|] == ScalarVars
  {
    ScalarVars + AxesVars(AxisCount)
  }

  /** A variable the status merger reads (lines 357-388 and the `stat` switch). */
  predicate Tracked(k: string) {
    k in ScalarVars || exists p, a :: p in AxisPrefixes && 0 <= a < AxisCount && k == AxisKey(p, a)
  }

  /** How one `{name: null}` request of the fetch was answered. */
  datatype Reply = Answered(frame: Object) | Failed(err: Error) | Unanswered

  /** The status report the fetch assembles (lines 477-483): each resolved request writes
      `data.r[name]`, which is undefined when the answer's `r` lacks the name; a later
      write of the same name wins. */
  function Collect(vars: seq<string>, frames: seq<Object>): (sr: Object)
    requires |vars| == |frames|
    ensures forall k :: k in sr <==> k in vars
    decreases |vars|
  {
    if |vars| == 0 then map[]
    else
      var last := |vars| - 1;
      Collect(vars[..last], frames[..last])[vars[last] := Get(Props(Get(frames[last], "r")), vars[last])]
  }

  datatype FetchOutcome = Fetched(merged: Merged) | FetchFailed(err: Error) | FetchPending

  /** The index of the first request not yet answered successfully, or the number of
      requests when all are. */
  function FirstUnanswered(replies: seq<Reply>): (k: nat)
    ensures k <= |replies|
    ensures forall i :: 0 <= i < k ==> replies[i].Answered?
    ensures k < |replies| ==> !replies[k].Answered?
    decreases |replies|
  {
    if |replies| == 0 || !replies[0].Answered? then 0
    else
      var k := FirstUnanswered(replies[1..]);
      assert forall i :: 1 <= i < k + 1 ==> replies[i] == replies[1..][i - 1];
      k + 1
  }

  /** `_fetchStatus(vars, emitEvent)` (lines 461-491). Answers arrive in request order, so
      the replies form a settled prefix: `Promise.all` rejects with the first failure,
      waits while a request is unanswered, and otherwise merges the assembled report. */
  function FetchStatus(m: Machine, vars: seq<string>, replies: seq<Reply>, emitEvent: bool): (r: FetchOutcome)
    requires WellFormed(m) && |replies| == |vars|
    ensures r.Fetched? <==> forall i :: 0 <= i < |replies| ==> replies[i].Answered?
    ensures r.FetchFailed? <==> exists i :: 0 <= i < |replies| && replies[i].Failed? &&
                                  forall j :: 0 <= j < i ==> replies[j].Answered?
    ensures r.FetchFailed? ==> exists i :: 0 <= i < |replies| && replies[i] == Failed(r.err)
    ensures r.Fetched? ==> r.merged == Merge(m, Collect(vars, Frames(replies)), emitEvent)
  {
    var k := FirstUnanswered(replies);
    if k == |replies| then Fetched(Merge(m, Collect(vars, Frames(replies)), emitEvent))
    else if replies[k].Failed? then FetchFailed(replies[k].err)
    else FetchPending
  }

  /** The answer frames of fully answered replies. */
  function Frames(replies: seq<Reply>): (r: seq<Object>)
    requires forall i :: 0 <= i < |replies| ==> replies[i].Answered?
    ensures |r| == |replies|
    ensures forall i :: 0 <= i < |replies| ==> r[i] == replies[i].frame
  {
    seq(|replies|, i requires 0 <= i < |replies| => replies[i].frame)
  }

  /** `this.config.statusReportInterval || 250` */
  function ReportInterval(configured: JVal): (v: JVal)
    ensures Truthy(configured) ==> v == configured
    ensures !Truthy(configured) ==> v == JNum(250.0)
  {
    if Truthy(configured) then configured else JNum(250.0)
  }

  /** Lines 507-508: the fields the automatic status reports are configured to carry. */
  const ReportFields: seq<string> :=
    ["n", "feed", "stat", "qr", "mpox", "mpoy", "mpoz", "mpoa", "mpob", "mpoc"]

  /** Lines 494-511: the commands `_initMachine` sends, one `sendWait` each, in order:
      strict JSON, echo off, verbosity 4, filtered automatic reports, the report interval,
      and the report fields. */
  function InitCommands(configured: JVal): (r: seq<Object>)
    ensures |r| == 6
    ensures r[0] == map["js" := JNum(1.0)] && r[1] == map["ee" := JNum(0.0)]
    ensures r[2] == map["jv" := JNum(4.0)] && r[3] == map["sv" := JNum(1.0)]
    ensures r[4] == map["si" := ReportInterval(configured)]
    ensures r[5].Keys == {"sr"} && r[5]["sr"].JObj?
    ensures forall k :: k in r[5]["sr"].props <==> k in ReportFields
    ensures forall k :: k in r[5]["sr"].props ==> r[5]["sr"].props[k] == JBool(true)
  {
    [map["js" := JNum(1.0)], map["ee" := JNum(0.0)], map["jv" := JNum(4.0)], map["sv" := JNum(1.0)],
     map["si" := ReportInterval(configured)],
     map["sr" := JObj(map k | k in ReportFields :: JBool(true))]]
  }

  /** Line 515: with the planner queue known to be empty, its size is taken to be the
      number of free entries it reports. */
  function FinishInit(m: Machine): (r: Machine)
    ensures r == m.(plannerQueueSize := m.plannerQueueFree)
    ensures !IsComposite(m.plannerQueueFree) ==> (Idle(r) <==> !r.flags.moving)
  {
    m.(plannerQueueSize := m.plannerQueueFree)
  }

  datatype InitOutcome = InitDone(m: Machine) | InitFailed(err: Error) | InitPending(sent: nat)

  /** Command `i` is the first of the six whose answer is not a success. */
  predicate FirstNotResolved(acks: seq<Settlement>, i: int)
    requires |acks| == 6
  {
    0 <= i < 6 && !acks[i].Resolved? && forall j :: 0 <= j < i ==> acks[j].Resolved?
  }

  /** The index of the first command whose answer is not a success, or 6 when all are. */
  function FirstUnaccepted(acks: seq<Settlement>): (k: nat)
    ensures k <= |acks|
    ensures forall i :: 0 <= i < k ==> acks[i].Resolved?
    ensures k < |acks| ==> !acks[k].Resolved?
    decreases |acks|
  {
    if |acks| == 0 || !acks[0].Resolved? then 0
    else
      var k := FirstUnaccepted(acks[1..]);
      assert forall i :: 1 <= i < k + 1 ==> acks[i] == acks[1..][i - 1];
      k + 1
  }

  /** `_initMachine()` (lines 493-516): each command waits for the previous one's answer,
      so the first command not accepted decides: a rejection fails the set-up, a missing
      answer leaves it waiting with no later command sent. After all six come the status
      fetch (without notification) and the planner size; a merge that throws fails the
      fetch. */
  function InitMachine(m: Machine, acks: seq<Settlement>, replies: seq<Reply>): (r: InitOutcome)
    requires WellFormed(m) && |acks| == 6 && |replies| == |FetchVars()|
    ensures forall i :: FirstNotResolved(acks, i) && acks[i].Rejected? ==> r == InitFailed(acks[i].err)
    ensures forall i :: FirstNotResolved(acks, i) && acks[i].Pending? ==> r == InitPending(i + 1)
    ensures r.InitDone? <==>
              (forall i :: 0 <= i < 6 ==> acks[i].Resolved?) &&
              (forall i :: 0 <= i < |replies| ==> replies[i].Answered?) &&
              FetchStatus(m, FetchVars(), replies, false).merged.err.None?
    ensures r.InitDone? ==> r.m.plannerQueueSize == r.m.plannerQueueFree
    ensures r.InitDone? && !IsComposite(r.m.plannerQueueFree) ==> (Idle(r.m) <==> !r.m.flags.moving)
  {
    var k := FirstUnaccepted(acks);
    if k < 6 then
      if acks[k].Pending? then InitPending(k + 1) else InitFailed(acks[k].err)
    else
      match FetchStatus(m, FetchVars(), replies, false)
      case Fetched(merged) => if merged.err.Some? then InitFailed(merged.err.value) else InitDone(FinishInit(merged.machine))
      case FetchFailed(e) => InitFailed(e)
      case FetchPending => InitPending(6 + |FetchVars()|)
  }

  /** `_setupSerial()` (lines 532-538): empty queues, no line in flight, four credits, no
      sync pending, an empty recorded report and an empty receive buffer. Waiters of
      lines that were in flight are never settled. */
  function SetupSerial(c: Controller): (r: Controller)
    requires Valid(c)
    ensures Valid(r) && Aligned(r) && CreditBalanced(r)
    ensures r.linesToSend == Credit && r.sendQueue == [] && r.inFlight == [] && !r.waitingForSync
    ensures r.machine.statusReport == map[] && r.receiveBuf == ""
    ensures r.waiters == c.waiters && r.written == c.written
    ensures Retires(c, r)
    ensures WaiterBook(c) ==> WaiterBook(r)
  {
    c.(sendQueue := [], waiterQueue := [], inFlight := [], linesToSend := Credit, waitingForSync := false,
       machine := c.machine.(statusReport := map[]), receiveBuf := "")
  }
}

/** What the fetch list covers, what the set-up leaves behind, and how many lines a fresh
    connection admits. */
module InitProperties {
  import opened Common
  import opened Json
  import opened MachineState
  import opened StatusReport
  import opened SendQueue
  import opened Init
  import SendQueueProperties

  /** A per-axis key: a prefix of three characters and the axis letter. */
  lemma AxisKeyShape(p: string, a: nat)
    requires p in AxisPrefixes && a < AxisCount
    ensures |AxisKey(p, a)| == 4 && AxisKey(p, a)[..3] == p && AxisKey(p, a)[3] == AxisLabels[a]
  {
  }

  /** The coordinate-system prefixes are the G54 … G59 members of the prefix set. */
  lemma CoordSysPrefixesListed(csys: nat)
    requires csys < CoordSystemCount
    ensures CoordSysPrefix(csys) in AxisPrefixes
  {
    var p := CoordSysPrefix(csys);
    assert p == "g5" + [p[2]];
    if csys == 0 { assert p == "g54"; }
    else if csys == 1 { assert p == "g55"; }
    else if csys == 2 { assert p == "g56"; }
    else if csys == 3 { assert p == "g57"; }
    else if csys == 4 { assert p == "g58"; }
    else { assert p == "g59"; }
  }

  lemma AxisVarsMembers(axis: nat, k: string)
    requires axis < AxisCount
    ensures k in AxisVars(axis) <==> exists p :: p in AxisPrefixes && k == AxisKey(p, axis)
  {
    if k in AxisVars(axis) {
      AxisVarsArePrefixed(axis, k);
    }
    if exists p :: p in AxisPrefixes && k == AxisKey(p, axis) {
      var p :| p in AxisPrefixes && k == AxisKey(p, axis);
      PrefixedAreAxisVars(axis, p);
    }
  }

  lemma AxisVarsArePrefixed(axis: nat, k: string)
    requires axis < AxisCount && k in AxisVars(axis)
    ensures exists p :: p in AxisPrefixes && k == AxisKey(p, axis)
  {
    var r := AxisVars(axis);
    var i :| 0 <= i < |r| && r[i] == k;
    if i >= 5 {
      CoordSysPrefixesListed(i - 5);
      assert k == AxisKey(CoordSysPrefix(i - 5), axis);
    }
  }

  lemma PrefixedAreAxisVars(axis: nat, p: string)
    requires axis < AxisCount && p in AxisPrefixes
    ensures AxisKey(p, axis) in AxisVars(axis)
  {
    var r := AxisVars(axis);
    if p !in {"mpo", "g92", "g28", "g30", "hom"} {
      var csys := if p == "g54" then 0 else if p == "g55" then 1 else if p == "g56" then 2
                  else if p == "g57" then 3 else if p == "g58" then 4 else 5;
      assert p == CoordSysPrefix(csys);
      assert r[5 + csys] == AxisKey(p, axis);
    } else {
      assert AxisKey(p, axis) in r[..5];
    }
  }

  lemma {:induction false} AxesVarsMembers(n: nat, k: string)
    requires n <= AxisCount
    ensures k in AxesVars(n) <==> exists p, a :: p in AxisPrefixes && 0 <= a < n && k == AxisKey(p, a)
    decreases n
  {
    if n > 0 {
      AxesVarsMembers(n - 1, k);
      AxisVarsMembers(n - 1, k);
      if exists p, a :: p in AxisPrefixes && 0 <= a < n && k == AxisKey(p, a) {
        var p, a :| p in AxisPrefixes && 0 <= a < n && k == AxisKey(p, a);
        if a < n - 1 {
          assert k in AxesVars(n - 1);
        } else {
          assert k in AxisVars(n - 1);
        }
      }
    }
  }

  /** `_fetchStatus(null)` asks for exactly the variables the status merger reads. */
  lemma FetchVarsAreTracked(k: string)
    ensures k in FetchVars() <==> Tracked(k)
  {
    AxesVarsMembers(AxisCount, k);
  }

  /** A per-axis array ignores a key that is not one of its prefix's keys. */
  lemma PatchIgnores(row: seq<JVal>, prefix: string, sr: Object, k: string)
    requires |row| == AxisCount && prefix in AxisPrefixes && !Tracked(k)
    ensures PatchAxes(row, prefix, sr) == PatchAxes(row, prefix, sr - {k})
  {
    forall i | 0 <= i < AxisCount
      ensures PatchAxes(row, prefix, sr)[i] == PatchAxes(row, prefix, sr - {k})[i]
    {
      assert AxisKey(prefix, i) != k;
    }
  }

  lemma HomedIgnores(homed: seq<bool>, sr: Object, k: string)
    requires |homed| == AxisCount && !Tracked(k)
    ensures PatchHomed(homed, sr) == PatchHomed(homed, sr - {k})
  {
    forall i | 0 <= i < AxisCount
      ensures PatchHomed(homed, sr)[i] == PatchHomed(homed, sr - {k})[i]
    {
      assert "hom" in AxisPrefixes && AxisKey("hom", i) != k;
    }
  }

  lemma OffsetsIgnore(table: map<real, OffsetRow>, sr: Object, k: string)
    requires (forall x :: x in table ==> |table[x]| == AxisCount) && !Tracked(k)
    ensures PatchCoordSysOffsets(table, sr) == PatchCoordSysOffsets(table, sr - {k})
  {
    forall x | x in CoordSysKeys
      ensures PatchOffsetRow(table, x.Floor as nat, sr) == PatchOffsetRow(table, x.Floor as nat, sr - {k})
    {
      RowIgnores(table, x.Floor as nat, sr, k);
    }
  }

  lemma RowIgnores(table: map<real, OffsetRow>, csys: nat, sr: Object, k: string)
    requires csys < CoordSystemCount && (forall x :: x in table ==> |table[x]| == AxisCount) && !Tracked(k)
    ensures PatchOffsetRow(table, csys, sr) == PatchOffsetRow(table, csys, sr - {k})
  {
    CoordSysPrefixesListed(csys);
    forall i | 0 <= i < AxisCount
      ensures PatchOffsetRow(table, csys, sr)[i] == PatchOffsetRow(table, csys, sr - {k})[i]
    {
      assert CoordSysPrefix(csys) + [AxisLabels[i]] == AxisKey(CoordSysPrefix(csys), i) != k;
    }
  }

  /** The merger reads nothing the fetch does not ask for: removing any other key from a
      report changes neither the copied variables nor the run-state flags. */
  lemma UntrackedKeyIgnored(m: Machine, sr: Object, k: string)
    requires WellFormed(m) && !Tracked(k)
    ensures MergeFields(m, sr) == MergeFields(m, sr - {k})
    ensures StatFlags(m.flags, sr) == StatFlags(m.flags, sr - {k})
  {
    var a := m.axes;
    PatchIgnores(a.mpos, "mpo", sr, k);
    PatchIgnores(a.offset, "g92", sr, k);
    PatchIgnores(a.storedPositions[0], "g28", sr, k);
    PatchIgnores(a.storedPositions[1], "g30", sr, k);
    HomedIgnores(a.homed, sr, k);
    OffsetsIgnore(a.coordSysOffsets, sr, k);
  }

  /** Every field the automatic reports are configured to carry is one the fetch asks for. */
  lemma ReportFieldsAreFetched()
    ensures forall k :: k in ReportFields ==> k in FetchVars()
  {
    forall k | k in ReportFields
      ensures k in FetchVars()
    {
      if k !in ScalarVars {
        var a := if k == "mpox" then 0 else if k == "mpoy" then 1 else if k == "mpoz" then 2
                 else if k == "mpoa" then 3 else if k == "mpob" then 4 else 5;
        assert k == AxisKey("mpo", a);
      }
      FetchVarsAreTracked(k);
    }
  }

  /** An unset or zero interval falls back to 250 ms; any other truthy value is sent as
      configured. */
  lemma IntervalDefaults()
    ensures InitCommands(JUndefined)[4] == map["si" := JNum(250.0)]
    ensures InitCommands(JNum(0.0))[4] == map["si" := JNum(250.0)]
    ensures InitCommands(JNum(100.0))[4] == map["si" := JNum(100.0)]
  {
  }

  /** The value collected for a variable is the one from its last request. */
  lemma {:induction false} CollectLastWrite(vars: seq<string>, frames: seq<Object>, i: nat)
    requires |vars| == |frames| && i < |vars|
    requires forall j :: i < j < |vars| ==> vars[j] != vars[i]
    ensures Collect(vars, frames)[vars[i]] == Get(Props(Get(frames[i], "r")), vars[i])
    decreases |vars|
  {
    var last := |vars| - 1;
    if i < last {
      assert vars[..last][i] == vars[i];
      assert frames[..last][i] == frames[i];
      CollectLastWrite(vars[..last], frames[..last], i);
    }
  }

  lemma AxesVarsAreLong(n: nat, j: nat)
    requires n <= AxisCount && j < |AxesVars(n)|
    ensures |AxesVars(n)[j]| == 4
  {
    var k := AxesVars(n)[j];
    AxesVarsMembers(n, k);
    var p, a :| p in AxisPrefixes && 0 <= a < n && k == AxisKey(p, a);
    AxisKeyShape(p, a);
  }

  /** A fully answered fetch records every variable and takes the planner's free count
      from the answer to `qr`; set-up fetches without notifying. */
  lemma FetchRefreshesPlanner(m: Machine, replies: seq<Reply>)
    requires WellFormed(m) && |replies| == |FetchVars()|
    requires forall i :: 0 <= i < |replies| ==> replies[i].Answered?
    ensures var r := FetchStatus(m, FetchVars(), replies, false);
            && r.Fetched? && !r.merged.notified
            && r.merged.machine.plannerQueueFree == Get(Props(Get(replies[6].frame, "r")), "qr")
  {
    var vars := FetchVars();
    var frames := Frames(replies);
    assert vars[6] == "qr";
    forall j | 6 < j < |vars| ensures vars[j] != vars[6] {
      assert vars[j] == AxesVars(AxisCount)[j - 7];
      AxesVarsAreLong(AxisCount, j - 7);
    }
    CollectLastWrite(vars, frames, 6);
  }

  /** A fresh connection admits four lines: of the lines queued behind it, the first four
      are written in order and the rest wait for answers. */
  lemma ResetAdmitsFourLines(c: Controller, q: seq<string>, predict: LinePredictor)
    requires Valid(c) && PredictorOk(predict) && |q| >= Credit
    requires SendQueueProperties.NoFollowUps(predict, q) && SendQueueProperties.AllCounted(q)
    ensures var reset := SetupSerial(c);
            var r := Pump(reset.(sendQueue := q, waiterQueue := seq(|q|, _ => None)), predict, AlignedMode);
            && r.written == c.written + SendQueueProperties.Wires(q[..Credit])
            && r.sendQueue == q[Credit..]
            && |r.inFlight| == Credit && r.linesToSend == 0
  {
    var start := SetupSerial(c).(sendQueue := q, waiterQueue := seq(|q|, _ => None));
    FullCreditAdmitsFour(start, predict);
  }

  lemma FullCreditAdmitsFour(s: Controller, predict: LinePredictor)
    requires Valid(s) && PredictorOk(predict) && !s.waitingForSync && s.linesToSend == Credit
    requires |s.sendQueue| >= Credit && |s.inFlight| == 0
    requires SendQueueProperties.NoFollowUps(predict, s.sendQueue) && SendQueueProperties.AllCounted(s.sendQueue)
    ensures var r := Pump(s, predict, AlignedMode);
            && r.written == s.written + SendQueueProperties.Wires(s.sendQueue[..Credit])
            && r.sendQueue == s.sendQueue[Credit..]
            && |r.inFlight| == Credit && r.linesToSend == 0
  {
    SendQueueProperties.PumpSendsUpToCredit(s, predict, AlignedMode);
    SendQueueProperties.PumpIsFifo(s, predict, AlignedMode);
  }
}
