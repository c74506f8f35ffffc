/** The status-report merger `_updateStatusReport` (src/tinyg-controller.js:346-459): it
    records every changed key in `currentStatusReport`, copies the tracked variables into
    the machine state, decodes the `stat` run-state code into the five state flags, and
    raises at most one `statusUpdate` notification per call. */
module StatusReport {
  import opened Common
  import opened Json
  import opened MachineState

  /** The run states behind the TinyG `stat` codes 0 … 9. */
  datatype RunState = Initializing | Reset | Alarm | Stop | End | Run | Hold | Probe | Cycle | Homing

  /** The label of each run state's case in `switch (sr.stat)`. */
  function StatCode(rs: RunState): nat {
    match rs
    case Initializing => 0
    case Reset => 1
    case Alarm => 2
    case Stop => 3
    case End => 4
    case Run => 5
    case Hold => 6
    case Probe => 7
    case Cycle => 8
    case Homing => 9
  }

  /** `switch (sr.stat)`: a case matches only a number strictly equal to its label. */
  function DecodeStat(v: JVal): (r: Option<RunState>)
    ensures r.Some? ==> v == JNum(StatCode(r.value) as real)
    ensures forall rs :: v == JNum(StatCode(rs) as real) ==> r == Some(rs)
  {
    if v == JNum(0.0) then Some(Initializing)
    else if v == JNum(1.0) then Some(Reset)
    else if v == JNum(2.0) then Some(Alarm)
    else if v == JNum(3.0) then Some(Stop)
    else if v == JNum(4.0) then Some(End)
    else if v == JNum(5.0) then Some(Run)
    else if v == JNum(6.0) then Some(Hold)
    else if v == JNum(7.0) then Some(Probe)
    else if v == JNum(8.0) then Some(Cycle)
    else if v == JNum(9.0) then Some(Homing)
    else None
  }

  /** The flags each run state sets. `programRunning` is left alone by Alarm, Hold, Probe
      and Homing; Alarm also supplies a default error description. */
  function RunStateFlags(f: RunFlags, rs: RunState): RunFlags {
    match rs
    case Initializing => f.(ready := false, paused := false, moving := false, error := false, programRunning := false)
    case Reset => f.(ready := true, paused := false, moving := false, error := false, programRunning := false)
    case Alarm => f.(ready := false, paused := false, moving := false, error := true,
                     errorData := if f.errorData == "" then "alarm" else f.errorData)
    case Stop => f.(ready := true, paused := false, moving := false, error := false, programRunning := true)
    case Cycle => f.(ready := true, paused := false, moving := false, error := false, programRunning := true)
    case End => f.(ready := true, paused := false, moving := false, error := false, programRunning := false)
    case Run => f.(ready := true, paused := false, moving := true, error := false, programRunning := true)
    case Hold => f.(ready := true, paused := true, moving := false, error := false)
    case Probe => f.(ready := true, paused := false, moving := true, error := false)
    case Homing => f.(ready := true, paused := false, moving := true, error := false)
  }

  /** The flags a report leaves behind: those of its `stat` code, or the old ones when it
      carries no code or one outside the table. The contract is the run-state table. */
  function StatFlags(f0: RunFlags, sr: Object): (f: RunFlags)
    ensures "stat" in sr && sr["stat"] == JNum(5.0) ==> f.ready && !f.paused && f.moving && !f.error && f.programRunning
    ensures "stat" in sr && sr["stat"] == JNum(2.0) ==>
              && !f.ready && !f.paused && !f.moving && f.error
              && f.programRunning == f0.programRunning
              && f.errorData == (if f0.errorData == "" then "alarm" else f0.errorData)
    ensures "stat" in sr && (sr["stat"] == JNum(3.0) || sr["stat"] == JNum(8.0)) ==>
              f.ready && !f.paused && !f.moving && !f.error && f.programRunning
    ensures "stat" in sr && (sr["stat"] == JNum(1.0) || sr["stat"] == JNum(4.0)) ==>
              f.ready && !f.paused && !f.moving && !f.error && !f.programRunning
    ensures "stat" in sr && sr["stat"] == JNum(0.0) ==> !f.ready && !f.paused && !f.moving && !f.error && !f.programRunning
    ensures "stat" in sr && sr["stat"] == JNum(6.0) ==>
              f.ready && f.paused && !f.moving && !f.error && f.programRunning == f0.programRunning
    ensures "stat" in sr && (sr["stat"] == JNum(7.0) || sr["stat"] == JNum(9.0)) ==>
              f.ready && !f.paused && f.moving && !f.error && f.programRunning == f0.programRunning
    ensures "stat" in sr && sr["stat"] != JNum(2.0) ==> f.errorData == f0.errorData
    ensures ("stat" !in sr || DecodeStat(sr["stat"]).None?) ==> f == f0
  {
    if "stat" in sr && DecodeStat(sr["stat"]).Some? then RunStateFlags(f0, DecodeStat(sr["stat"]).value) else f0
  }

  /** `currentStatusReport[k] !== sr[k]` */
  predicate Differs(report: Object, sr: Object, k: string)
    requires k in sr
  {
    !StrictEq(Get(report, k), sr[k])
  }

  /** Some reported value differs from the recorded one. */
  predicate Changed(report: Object, sr: Object) {
    exists k :: k in sr && Differs(report, sr, k)
  }

  /** Lines 349-354: every differing value is written into the recorded report. Reading
      any reported key back afterwards gives the reported value, and every other key reads
      as before. */
  function Record(report: Object, sr: Object): (r: Object)
    ensures forall k :: k in sr ==> Get(r, k) == sr[k]
    ensures forall k :: k !in sr ==> (k in r <==> k in report) && Get(r, k) == Get(report, k)
  {
    report + map k | k in sr && Differs(report, sr, k) :: sr[k]
  }

  /** `r` is `row` with every reported `prefix`+axis value copied in, and every other axis
      as it was. */
  predicate PatchedFrom(r: seq<JVal>, row: seq<JVal>, prefix: string, sr: Object)
    requires |r| == AxisCount && |row| == AxisCount
  {
    forall i :: 0 <= i < AxisCount ==> r[i] == if AxisKey(prefix, i) in sr then sr[AxisKey(prefix, i)] else row[i]
  }

  /** A per-axis array with every reported `prefix`+axis value copied in. */
  function PatchAxes(row: seq<JVal>, prefix: string, sr: Object): (r: seq<JVal>)
    requires |row| == AxisCount
    ensures |r| == AxisCount
    ensures PatchedFrom(r, row, prefix, sr)
  {
    seq(AxisCount, i requires 0 <= i < AxisCount =>
      if AxisKey(prefix, i) in sr then sr[AxisKey(prefix, i)] else row[i])
  }

  /** The homed flags, with every reported `hom`+axis value coerced to a boolean. */
  function PatchHomed(homed: seq<bool>, sr: Object): (r: seq<bool>)
    requires |homed| == AxisCount
    ensures |r| == AxisCount
    ensures forall i :: 0 <= i < AxisCount ==> r[i] == if AxisKey("hom", i) in sr then Truthy(sr[AxisKey("hom", i)]) else homed[i]
  {
    seq(AxisCount, i requires 0 <= i < AxisCount =>
      if AxisKey("hom", i) in sr then Truthy(sr[AxisKey("hom", i)]) else homed[i])
  }

  /** Row `csys` of the coordinate-system offsets: created empty (all holes) when missing,
      then every reported `g5n`+axis value copied in. */
  function PatchOffsetRow(table: map<real, OffsetRow>, csys: nat, sr: Object): (r: OffsetRow)
    requires csys < CoordSystemCount
    requires forall k :: k in table ==> |table[k]| == AxisCount
    ensures |r| == AxisCount
    ensures forall i :: 0 <= i < AxisCount ==>
              r[i] == if AxisKey(CoordSysPrefix(csys), i) in sr then Some(sr[AxisKey(CoordSysPrefix(csys), i)])
                      else if csys as real in table then table[csys as real][i]
                      else None
  {
    var row := if csys as real in table then table[csys as real] else seq(AxisCount, _ => None);
    seq(AxisCount, i requires 0 <= i < AxisCount =>
      var key := AxisKey(CoordSysPrefix(csys), i);
      if key in sr then Some(sr[key]) else row[i])
  }

  const CoordSysKeys: set<real> := {0.0, 1.0, 2.0, 3.0, 4.0, 5.0}

  function PatchCoordSysOffsets(table: map<real, OffsetRow>, sr: Object): (r: map<real, OffsetRow>)
    requires forall k :: k in table ==> |table[k]| == AxisCount
    ensures r.Keys == table.Keys + CoordSysKeys
    ensures forall k :: k in r ==> |r[k]| == AxisCount
    ensures forall k :: k in CoordSysKeys ==> r[k] == PatchOffsetRow(table, k.Floor as nat, sr)
    ensures forall k :: k in table && k !in CoordSysKeys ==> r[k] == table[k]
  {
    table + map k | k in CoordSysKeys :: PatchOffsetRow(table, k.Floor as nat, sr)
  }

  /** `coor` 0 means no coordinate system; any other value `v` selects index `v - 1`. */
  function DecodeCoordSys(v: JVal): Option<Number> {
    if StrictEq(v, JNum(0.0)) then None else Some(MinusOne(v))
  }

  /** Lines 357-369: the per-axis variables copied into the machine state. */
  function MergeAxes(a: Axes, sr: Object): (r: Axes)
    requires AxesOk(a)
    ensures AxesOk(r)
    ensures PatchedFrom(r.mpos, a.mpos, "mpo", sr) && PatchedFrom(r.offset, a.offset, "g92", sr)
    ensures PatchedFrom(r.storedPositions[0], a.storedPositions[0], "g28", sr)
    ensures PatchedFrom(r.storedPositions[1], a.storedPositions[1], "g30", sr)
    ensures forall i :: 0 <= i < AxisCount ==>
              r.homed[i] == if AxisKey("hom", i) in sr then Truthy(sr[AxisKey("hom", i)]) else a.homed[i]
    ensures r.coordSysOffsets == PatchCoordSysOffsets(a.coordSysOffsets, sr)
  {
    Axes(PatchAxes(a.mpos, "mpo", sr),
         PatchAxes(a.offset, "g92", sr),
         [PatchAxes(a.storedPositions[0], "g28", sr), PatchAxes(a.storedPositions[1], "g30", sr)],
         PatchHomed(a.homed, sr),
         PatchCoordSysOffsets(a.coordSysOffsets, sr))
  }

  /** Lines 371-373. */
  function ReportedCoordSys(prev: Option<Number>, sr: Object): (r: Option<Number>)
    ensures "coor" in sr ==> (r.None? <==> sr["coor"] == JNum(0.0))
    ensures "coor" in sr && sr["coor"] != JNum(0.0) ==> r == Some(MinusOne(sr["coor"]))
    ensures "coor" !in sr ==> r == prev
  {
    if "coor" in sr then DecodeCoordSys(sr["coor"]) else prev
  }

  /** Lines 374-376. */
  function ReportedUnits(prev: Units, sr: Object): (r: Units)
    ensures "unit" in sr ==> r != UnitsUnset && (r == Millimetres <==> Truthy(sr["unit"]))
    ensures "unit" !in sr ==> r == prev
  {
    if "unit" in sr then (if Truthy(sr["unit"]) then Millimetres else Inches) else prev
  }

  /** A variable copied verbatim (`feed`, `n`, `qr`). */
  function ReportedValue(prev: JVal, key: string, sr: Object): (r: JVal)
    ensures key in sr ==> r == sr[key]
    ensures key !in sr ==> r == prev
  {
    if key in sr then sr[key] else prev
  }

  /** A variable coerced to a boolean (`dist`). */
  function ReportedFlag(prev: bool, key: string, sr: Object): (r: bool)
    ensures key in sr ==> r == Truthy(sr[key])
    ensures key !in sr ==> r == prev
  {
    if key in sr then Truthy(sr[key]) else prev
  }

  /** Lines 357-388: the tracked variables copied into the machine state; nothing else
      changes. */
  function MergeFields(m: Machine, sr: Object): (r: Machine)
    requires WellFormed(m)
    ensures WellFormed(r)
    ensures r.flags == m.flags && r.statusReport == m.statusReport
    ensures r.offsetEnabled == m.offsetEnabled && r.spindle == m.spindle && r.coolant == m.coolant
    ensures r.plannerQueueSize == m.plannerQueueSize
    ensures r.axes == MergeAxes(m.axes, sr)
    ensures r.activeCoordSys == ReportedCoordSys(m.activeCoordSys, sr) && r.units == ReportedUnits(m.units, sr)
    ensures r.feed == ReportedValue(m.feed, "feed", sr) && r.incremental == ReportedFlag(m.incremental, "dist", sr)
    ensures r.line == ReportedValue(m.line, "n", sr) && r.plannerQueueFree == ReportedValue(m.plannerQueueFree, "qr", sr)
  {
    m.(axes := MergeAxes(m.axes, sr),
       activeCoordSys := ReportedCoordSys(m.activeCoordSys, sr),
       units := ReportedUnits(m.units, sr),
       feed := ReportedValue(m.feed, "feed", sr),
       incremental := ReportedFlag(m.incremental, "dist", sr),
       line := ReportedValue(m.line, "n", sr),
       plannerQueueFree := ReportedValue(m.plannerQueueFree, "qr", sr))
  }

  /** The outcome of one merge: the new state, whether `statusUpdate` was raised, and the
      error thrown for an unknown `stat` (the fields copied before the throw stay copied). */
  datatype Merged = Merged(machine: Machine, notified: bool, err: Option<Error>)

  /** `_updateStatusReport(sr, emitEvent)`. */
  function Merge(m: Machine, sr: Object, emitEvent: bool): (r: Merged)
    requires WellFormed(m)
    ensures WellFormed(r.machine)
    ensures r.err.Some? <==> "stat" in sr && DecodeStat(sr["stat"]).None?
    ensures r.err.Some? ==> r.err.value == UnknownMachineState(sr["stat"])
    ensures r.notified <==> emitEvent && r.err.None? && exists k :: k in sr && !StrictEq(Get(m.statusReport, k), sr[k])
    ensures forall k :: k in sr ==> Get(r.machine.statusReport, k) == sr[k]
    ensures r.machine.flags == StatFlags(m.flags, sr)
    ensures r.machine == MergeFields(m, sr).(statusReport := Record(m.statusReport, sr), flags := r.machine.flags)
  {
    var fields := MergeFields(m.(statusReport := Record(m.statusReport, sr)), sr);
    var err := if "stat" in sr && DecodeStat(sr["stat"]).None? then Some(UnknownMachineState(sr["stat"])) else None;
    Merged(fields.(flags := StatFlags(fields.flags, sr)), emitEvent && err.None? && Changed(m.statusReport, sr), err)
  }
}

/** Properties of the status-report merger. */
module StatusReportProperties {
  import opened Common
  import opened Json
  import opened MachineState
  import opened StatusReport

  /** The run-state switch accepts exactly the integers 0 … 9. */
  lemma {:induction false} DecodeStatAcceptsZeroToNine(v: JVal)
    ensures DecodeStat(v).Some? <==> v.JNum? && v.n == v.n.Floor as real && 0.0 <= v.n <= 9.0
  {
    if v.JNum? && v.n == v.n.Floor as real && 0.0 <= v.n <= 9.0 {
      var k := v.n.Floor;
      assert 0 <= k <= 9;
      assert k == 0 || k == 1 || k == 2 || k == 3 || k == 4 || k == 5 || k == 6 || k == 7 || k == 8 || k == 9;
    }
  }

  /** An unknown `stat` code: the flags stay, nothing is announced, and the merge fails
      with the offending code. */
  lemma UnknownStatRejected(m: Machine, sr: Object, emitEvent: bool)
    requires WellFormed(m) && "stat" in sr && DecodeStat(sr["stat"]).None?
    ensures var r := Merge(m, sr, emitEvent);
            r.machine.flags == m.flags && !r.notified && r.err == Some(UnknownMachineState(sr["stat"]))
  {
  }

  /** Recording a report whose values are already recorded changes nothing. */
  lemma RecordIdempotent(report: Object, sr: Object)
    requires forall k :: k in sr ==> !IsComposite(sr[k])
    ensures var once := Record(report, sr);
            Record(once, sr) == once && !Changed(once, sr)
  {
    var once := Record(report, sr);
    assert (map k | k in sr && Differs(once, sr, k) :: sr[k]) == map[];
  }

  lemma {:induction false} PatchCoordSysOffsetsIdempotent(table: map<real, OffsetRow>, sr: Object)
    requires forall k :: k in table ==> |table[k]| == AxisCount
    ensures var once := PatchCoordSysOffsets(table, sr);
            PatchCoordSysOffsets(once, sr) == once
  {
    var once := PatchCoordSysOffsets(table, sr);
    forall k | k in CoordSysKeys
      ensures PatchOffsetRow(once, k.Floor as nat, sr) == once[k]
    {
      assert k.Floor as nat as real == k;
      var row := PatchOffsetRow(once, k.Floor as nat, sr);
      assert forall i :: 0 <= i < AxisCount ==> row[i] == once[k][i];
    }
  }

  lemma MergeAxesIdempotent(a: Axes, sr: Object)
    requires AxesOk(a)
    ensures MergeAxes(MergeAxes(a, sr), sr) == MergeAxes(a, sr)
  {
    var once := MergeAxes(a, sr);
    PatchCoordSysOffsetsIdempotent(a.coordSysOffsets, sr);
    assert PatchAxes(once.mpos, "mpo", sr) == once.mpos;
    assert PatchAxes(once.offset, "g92", sr) == once.offset;
    assert PatchAxes(once.storedPositions[0], "g28", sr) == once.storedPositions[0];
    assert PatchAxes(once.storedPositions[1], "g30", sr) == once.storedPositions[1];
    assert PatchHomed(once.homed, sr) == once.homed;
  }

  lemma MergeFieldsIdempotent(m: Machine, sr: Object)
    requires WellFormed(m)
    ensures MergeFields(MergeFields(m, sr), sr) == MergeFields(m, sr)
  {
    MergeAxesIdempotent(m.axes, sr);
  }

  /** Re-applying a status code changes no flag. */
  lemma StatFlagsIdempotent(f: RunFlags, sr: Object)
    ensures StatFlags(StatFlags(f, sr), sr) == StatFlags(f, sr)
  {
  }

  /** Feeding the same report twice: the second merge changes nothing and, since every value
      already matches, raises no notification. (Composite values are excluded: they never
      compare equal, so JavaScript reports them as changed every time.) */
  lemma MergeIdempotent(m: Machine, sr: Object, emitEvent: bool)
    requires WellFormed(m)
    requires forall k :: k in sr ==> !IsComposite(sr[k])
    requires Merge(m, sr, emitEvent).err.None?
    ensures var once := Merge(m, sr, emitEvent).machine;
            Merge(once, sr, emitEvent) == Merged(once, false, None)
  {
    var recorded := Record(m.statusReport, sr);
    var fields := MergeFields(m.(statusReport := recorded), sr);
    var once := fields.(flags := StatFlags(fields.flags, sr));
    assert Merge(m, sr, emitEvent).machine == once;
    RecordIdempotent(m.statusReport, sr);
    MergeFieldsIdempotent(m.(statusReport := recorded), sr);
    StatFlagsIdempotent(m.flags, sr);
    MergeFieldsKeepsFlags(fields, once.flags, sr);
  }

  /** The copied variables do not depend on the run-state flags. */
  lemma MergeFieldsKeepsFlags(m: Machine, flags: RunFlags, sr: Object)
    requires WellFormed(m)
    ensures MergeFields(m.(flags := flags), sr) == MergeFields(m, sr).(flags := flags)
  {
  }

  /** A status-report fragment carrying `mpox: 1.0` and `stat: 5` (run) moves axis 0 to 1.0,
      sets the machine moving and raises one notification when the position was not
      recorded before. */
  lemma PositionAndRunFragment(m: Machine)
    requires WellFormed(m) && "mpox" !in m.statusReport
    ensures var sr := map["mpox" := JNum(1.0), "stat" := JNum(5.0)];
            var r := Merge(m, sr, true);
            && r.err.None? && r.notified
            && r.machine.axes.mpos[0] == JNum(1.0)
            && r.machine.flags.ready && !r.machine.flags.paused && !r.machine.flags.error
            && r.machine.flags.moving && r.machine.flags.programRunning
  {
    var sr := map["mpox" := JNum(1.0), "stat" := JNum(5.0)];
    assert AxisKey("mpo", 0) == "mpox";
    assert "mpox" in sr && !StrictEq(Get(m.statusReport, "mpox"), sr["mpox"]);
  }
}
