/** The gcode side-effect predictor `_checkGCodeUpdateState` (src/tinyg-controller.js:146-271).
    Given the word map of an outgoing line it chooses at most one deferred state change,
    to be applied once the device acknowledges the line, and possibly extra commands to
    send right after it. The source tests thirteen conditions one after another and each
    match overwrites the closure chosen so far, so the LAST matching branch wins.

    The deferred closures are modelled as a tagged `Effect`, applied by `ApplyEffect`.
    Word values are kept as exact reals: `28.1`, `92.3` and the like compare exactly. */
module Predictor {
  import opened Common
  import opened Json
  import opened MachineState

  /** `gparse(line)`: each word letter, upper-cased, mapped to its (last) value. */
  type WordMap = map<char, real>

  /** `wordmap.X === v`: a missing word is `undefined` and equals no number. */
  predicate WordIs(w: WordMap, letter: char, v: real) {
    letter in w && w[letter] == v
  }

  /** The upper-case axis letters the deferred closures look for. */
  const AxisWords: string := "XYZABC"

  /** Per axis, the value of its word when the line carries one. */
  function AxisValues(w: WordMap): (r: seq<Option<real>>)
    ensures |r| == AxisCount
    ensures forall i :: 0 <= i < AxisCount ==> (r[i].Some? <==> AxisWords[i] in w)
    ensures forall i :: 0 <= i < AxisCount && AxisWords[i] in w ==> r[i].value == w[AxisWords[i]]
  {
    seq(AxisCount, i requires 0 <= i < AxisCount => if AxisWords[i] in w then Some(w[AxisWords[i]]) else None)
  }

  /** The deferred state changes, one per branch of the source. */
  datatype Effect =
    | SetCoordOffsets(csys: real, values: seq<Option<real>>) // G10 L2 Pn: row n-1 of the offsets
    | SetUnits(units: Units)                                   // G20 / G21
    | StorePosition(slot: nat)                                 // G28.1 / G30.1
    | MarkHomed(axes: seq<bool>)                               // G28.2 / G28.3
    | SelectCoordSys(index: real)                              // G54 … G59
    | SetIncremental(incremental: bool)                        // G90 / G91
    | SetOffset(values: seq<Option<real>>)                     // G92
    | ResetOffset                                              // G92.1
    | SetOffsetEnabled(enabled: bool)                          // G92.2 / G92.3
    | EndProgram                                               // M2 / M30
    | SetSpindle(on: bool)                                     // M3 / M4 / M5
    | SetCoolant(coolant: Coolant)                             // M7 / M8 / M9

  /** The thirteen tests of the predictor, in source order. */
  datatype Branch =
    | G10L2 | UnitsMode | StorePos | Homing | CoordSys | DistanceMode
    | G92 | G92Reset | G92Suspend | G92Resume | ProgramEnd | SpindleMode | CoolantMode

  /** Position of a branch in the source: a later branch overrides an earlier one. */
  function Order(b: Branch): nat {
    match b
    case G10L2 => 0
    case UnitsMode => 1
    case StorePos => 2
    case Homing => 3
    case CoordSys => 4
    case DistanceMode => 5
    case G92 => 6
    case G92Reset => 7
    case G92Suspend => 8
    case G92Resume => 9
    case ProgramEnd => 10
    case SpindleMode => 11
    case CoolantMode => 12
  }

  /** The condition of each branch (the corrected one for M9; see `PredictAsWritten`). */
  predicate Matches(w: WordMap, b: Branch) {
    match b
    case G10L2 => WordIs(w, 'G', 10.0) && WordIs(w, 'L', 2.0) && 'P' in w && w['P'] != 0.0
    case UnitsMode => WordIs(w, 'G', 20.0) || WordIs(w, 'G', 21.0)
    case StorePos => WordIs(w, 'G', 28.1) || WordIs(w, 'G', 30.1)
    case Homing => WordIs(w, 'G', 28.2) || WordIs(w, 'G', 28.3)
    case CoordSys => 'G' in w && 54.0 <= w['G'] <= 59.0 && w['G'].Floor as real == w['G']
    case DistanceMode => WordIs(w, 'G', 90.0) || WordIs(w, 'G', 91.0)
    case G92 => WordIs(w, 'G', 92.0)
    case G92Reset => WordIs(w, 'G', 92.1)
    case G92Suspend => WordIs(w, 'G', 92.2)
    case G92Resume => WordIs(w, 'G', 92.3)
    case ProgramEnd => WordIs(w, 'M', 2.0) || WordIs(w, 'M', 30.0)
    case SpindleMode => WordIs(w, 'M', 3.0) || WordIs(w, 'M', 4.0) || WordIs(w, 'M', 5.0)
    case CoolantMode => WordIs(w, 'M', 7.0) || WordIs(w, 'M', 8.0) || WordIs(w, 'M', 9.0)
  }

  /** The closure each branch builds, with the values it captures from the word map. */
  function BranchEffect(w: WordMap, b: Branch): (r: Effect)
    ensures Applicable(r)
    ensures r.SetCoolant? <==> b == CoolantMode
    ensures TouchesAxes(r) <==> b in {G10L2, StorePos, Homing, G92, G92Reset, ProgramEnd}
  {
    match b
    case G10L2 => SetCoordOffsets(if 'P' in w then w['P'] - 1.0 else 0.0, AxisValues(w))
    case UnitsMode => SetUnits(if WordIs(w, 'G', 20.0) then Inches else Millimetres)
    case StorePos => StorePosition(if WordIs(w, 'G', 28.1) then 0 else 1)
    case Homing => MarkHomed(seq(AxisCount, i requires 0 <= i < AxisCount => AxisWords[i] in w))
    case CoordSys => SelectCoordSys(if 'G' in w then w['G'] - 54.0 else 0.0)
    case DistanceMode => SetIncremental(!WordIs(w, 'G', 90.0))
    case G92 => SetOffset(AxisValues(w))
    case G92Reset => ResetOffset
    case G92Suspend => SetOffsetEnabled(false)
    case G92Resume => SetOffsetEnabled(true)
    case ProgramEnd => EndProgram
    case SpindleMode => SetSpindle(!WordIs(w, 'M', 5.0))
    case CoolantMode => SetCoolant(if WordIs(w, 'M', 7.0) then Mist else if WordIs(w, 'M', 8.0) then Flood else CoolantOff)
  }

  /** The branch whose closure survives: the tests are run in source order, so it is the
      matching branch that comes last. */
  function Winner(w: WordMap): (r: Option<Branch>)
    ensures r.Some? ==> Matches(w, r.value)
    ensures r.Some? ==> forall b :: Matches(w, b) ==> Order(b) <= Order(r.value)
    ensures r.None? <==> forall b :: !Matches(w, b)
  {
    if Matches(w, CoolantMode) then Some(CoolantMode)
    else if Matches(w, SpindleMode) then Some(SpindleMode)
    else if Matches(w, ProgramEnd) then Some(ProgramEnd)
    else if Matches(w, G92Resume) then Some(G92Resume)
    else if Matches(w, G92Suspend) then Some(G92Suspend)
    else if Matches(w, G92Reset) then Some(G92Reset)
    else if Matches(w, G92) then Some(G92)
    else if Matches(w, DistanceMode) then Some(DistanceMode)
    else if Matches(w, CoordSys) then Some(CoordSys)
    else if Matches(w, Homing) then Some(Homing)
    else if Matches(w, StorePos) then Some(StorePos)
    else if Matches(w, UnitsMode) then Some(UnitsMode)
    else if Matches(w, G10L2) then Some(G10L2)
    else None
  }

  /** The commands queued after a program end, `{coor: null}` and `{unit: null}` as
      `JSON.stringify` renders them: they make the device report the reset values. */
  const EndFollowUps: seq<string> := ["{\"coor\":null}", "{\"unit\":null}"]

  /** `[fn, sendmore]`. */
  datatype Prediction = Prediction(effect: Option<Effect>, followUps: seq<string>)

  /** `_checkGCodeUpdateState(line)` on the word map `gparse` produced (None: `gparse`
      returned null). The result is null exactly when no branch matches; otherwise it
      carries the winning branch's closure, and the follow-up commands when — and only
      when — a program-end word is on the line, whichever branch wins. */
  function Predict(words: Option<WordMap>): (r: Option<Prediction>)
    ensures r.None? <==> words.None? || forall b :: !Matches(words.value, b)
    ensures r.Some? ==> r.value.effect.Some? && Winner(words.value).Some?
                        && r.value.effect.value == BranchEffect(words.value, Winner(words.value).value)
    ensures r.Some? ==> r.value.followUps == if Matches(words.value, ProgramEnd) then EndFollowUps else []
  {
    if words.None? then None
    else
      var w := words.value;
      var sendmore := if Matches(w, ProgramEnd) then EndFollowUps else [];
      match Winner(w)
      case None => None
      case Some(b) => Some(Prediction(Some(BranchEffect(w, b)), sendmore))
  }

  /** The predictor as written: the M9 test reads the undeclared `wordmao`, so evaluating
      it throws a ReferenceError. The `||` stops early only when M is 7 or 8; every other
      line that has words fails there, after the earlier tests and before the result is
      returned. */
  function PredictAsWritten(words: Option<WordMap>): (r: Result<Option<Prediction>, Error>)
    ensures r.Failure? ==> r.error == ReferenceError
    ensures r.Failure? <==> words.Some? && !WordIs(words.value, 'M', 7.0) && !WordIs(words.value, 'M', 8.0)
  {
    if words.None? then Success(None)
    else if WordIs(words.value, 'M', 7.0) || WordIs(words.value, 'M', 8.0) then Success(Predict(words))
    else Failure(ReferenceError)
  }

  /** The outcome of running a deferred closure: the new state, and whether it raised
      `statusUpdate`. */
  datatype Applied = Applied(machine: Machine, notified: bool)

  /** `row` with each axis value the line carries written in. */
  function WriteAxes(row: seq<JVal>, values: seq<Option<real>>): (r: seq<JVal>)
    requires |row| == AxisCount && |values| == AxisCount
    ensures |r| == AxisCount
    ensures forall i :: 0 <= i < AxisCount ==> r[i] == if values[i].Some? then JNum(values[i].value) else row[i]
  {
    seq(AxisCount, i requires 0 <= i < AxisCount => if values[i].Some? then JNum(values[i].value) else row[i])
  }

  /** Lines 170-175: row `csys` of the coordinate-system offsets (a row of zeros if it is
      missing) with each axis value the line carries written in; the other rows stay. */
  function WriteCoordOffsets(table: map<real, OffsetRow>, csys: real, values: seq<Option<real>>)
    : (r: map<real, OffsetRow>)
    requires forall k :: k in table ==> |table[k]| == AxisCount
    requires |values| == AxisCount
    ensures r.Keys == table.Keys + {csys}
    ensures forall k :: k in r ==> |r[k]| == AxisCount
    ensures forall k :: k in table && k != csys ==> r[k] == table[k]
    ensures forall i :: 0 <= i < AxisCount ==>
              r[csys][i] == if values[i].Some? then Some(JNum(values[i].value))
                            else if csys in table then table[csys][i] else Some(JNum(0.0))
  {
    var row := if csys in table then table[csys] else seq(AxisCount, _ => Some(JNum(0.0)));
    table[csys := seq(AxisCount, i requires 0 <= i < AxisCount =>
                        if values[i].Some? then Some(JNum(values[i].value)) else row[i])]
  }

  /** Lines 194-197: the axes named on the line become homed; no axis becomes unhomed. */
  function MarkAxesHomed(homed: seq<bool>, axes: seq<bool>): (r: seq<bool>)
    requires |homed| == AxisCount && |axes| == AxisCount
    ensures |r| == AxisCount
    ensures forall i :: 0 <= i < AxisCount ==> (r[i] <==> axes[i] || homed[i])
  {
    seq(AxisCount, i requires 0 <= i < AxisCount => axes[i] || homed[i])
  }

  /** Whether a closure touches the per-axis arrays. */
  predicate TouchesAxes(e: Effect) {
    e.SetCoordOffsets? || e.StorePosition? || e.MarkHomed? || e.SetOffset? || e.ResetOffset? || e.EndProgram?
  }

  /** The axis-indexed part of a closure's change. */
  function ApplyToAxes(a: Axes, e: Effect): (r: Axes)
    requires AxesOk(a) && Applicable(e)
    ensures AxesOk(r) && r.mpos == a.mpos
    ensures !TouchesAxes(e) ==> r == a
    ensures e.StorePosition? ==> r.storedPositions[e.slot] == a.mpos
                                 && r.storedPositions[1 - e.slot] == a.storedPositions[1 - e.slot]
    ensures !e.StorePosition? ==> r.storedPositions == a.storedPositions
    ensures e.MarkHomed? ==> r.homed == MarkAxesHomed(a.homed, e.axes)
    ensures !e.MarkHomed? ==> r.homed == a.homed
    ensures e.SetCoordOffsets? ==> r.coordSysOffsets == WriteCoordOffsets(a.coordSysOffsets, e.csys, e.values)
    ensures !e.SetCoordOffsets? ==> r.coordSysOffsets == a.coordSysOffsets
    ensures e.SetOffset? ==> r.offset == WriteAxes(a.offset, e.values)
    ensures e.ResetOffset? || e.EndProgram? ==> r.offset == ZeroPoint()
    ensures !(e.SetOffset? || e.ResetOffset? || e.EndProgram?) ==> r.offset == a.offset
  {
    match e
    case SetCoordOffsets(csys, values) => a.(coordSysOffsets := WriteCoordOffsets(a.coordSysOffsets, csys, values))
    case StorePosition(slot) => a.(storedPositions := a.storedPositions[slot := a.mpos])
    case MarkHomed(axes) => a.(homed := MarkAxesHomed(a.homed, axes))
    case SetOffset(values) => a.(offset := WriteAxes(a.offset, values))
    case ResetOffset => a.(offset := ZeroPoint())
    case EndProgram => a.(offset := ZeroPoint())
    case _ => a
  }

  /** The scalar variables each closure assigns. */
  function ApplyToScalars(m: Machine, e: Effect): (r: Machine)
    ensures r.axes == m.axes && r.statusReport == m.statusReport && r.flags == m.flags
    ensures e.SetUnits? ==> r == m.(units := e.units)
    ensures e.SetIncremental? ==> r == m.(incremental := e.incremental)
    ensures e.SelectCoordSys? ==> r == m.(activeCoordSys := Some(Finite(e.index)))
    ensures e.SetSpindle? ==> r == m.(spindle := e.on)
    ensures e.SetCoolant? ==> r == m.(coolant := e.coolant)
    ensures e.SetOffsetEnabled? ==> r == m.(offsetEnabled := e.enabled)
    ensures e.SetOffset? ==> r == m.(offsetEnabled := true)
    ensures e.ResetOffset? ==> r == m.(offsetEnabled := false)
    ensures e.EndProgram? ==> r == m.(offsetEnabled := false, activeCoordSys := Some(Finite(0.0)),
                                      incremental := false, spindle := false, coolant := CoolantOff)
    ensures e.SetCoordOffsets? || e.StorePosition? || e.MarkHomed? ==> r == m
  {
    match e
    case SetUnits(u) => m.(units := u)
    case SelectCoordSys(index) => m.(activeCoordSys := Some(Finite(index)))
    case SetIncremental(b) => m.(incremental := b)
    case SetOffset(_) => m.(offsetEnabled := true)
    case ResetOffset => m.(offsetEnabled := false)
    case SetOffsetEnabled(b) => m.(offsetEnabled := b)
    case EndProgram =>
      m.(offsetEnabled := false, activeCoordSys := Some(Finite(0.0)), incremental := false,
         spindle := false, coolant := CoolantOff)
    case SetSpindle(b) => m.(spindle := b)
    case SetCoolant(c) => m.(coolant := c)
    case _ => m
  }

  /** Run one deferred closure (lines 169-266): its per-axis and its scalar assignments.
      Every closure but the coolant one raises `statusUpdate`. */
  function ApplyEffect(m: Machine, e: Effect): (r: Applied)
    requires WellFormed(m) && Applicable(e)
    ensures WellFormed(r.machine)
    ensures r.notified <==> !e.SetCoolant?
    ensures r.machine.statusReport == m.statusReport && r.machine.flags == m.flags
    ensures r.machine.axes == ApplyToAxes(m.axes, e)
    ensures !TouchesAxes(e) ==> r.machine == ApplyToScalars(m, e)
  {
    Applied(ApplyToScalars(m, e).(axes := ApplyToAxes(m.axes, e)), !e.SetCoolant?)
  }

  /** Every closure the predictor builds can be run on a well-formed state. */
  predicate Applicable(e: Effect) {
    && (e.SetCoordOffsets? || e.SetOffset? ==> |e.values| == AxisCount)
    && (e.MarkHomed? ==> |e.axes| == AxisCount)
    && (e.StorePosition? ==> e.slot < 2)
  }
}

/** What the predictor promises for the gcodes it watches, and the M9 defect. */
module PredictorProperties {
  import opened Common
  import opened Json
  import opened MachineState
  import opened Predictor

  /** G20 selects inches and G21 millimetres, deferred, with nothing sent after. An M word
      (a later branch) is what could override it. */
  lemma UnitsMapping(w: WordMap)
    requires 'M' !in w
    ensures WordIs(w, 'G', 20.0) ==> Predict(Some(w)) == Some(Prediction(Some(SetUnits(Inches)), []))
    ensures WordIs(w, 'G', 21.0) ==> Predict(Some(w)) == Some(Prediction(Some(SetUnits(Millimetres)), []))
  {
  }

  /** G90 selects absolute and G91 incremental distances. */
  lemma DistanceMapping(w: WordMap)
    requires 'M' !in w
    ensures WordIs(w, 'G', 90.0) ==> Predict(Some(w)) == Some(Prediction(Some(SetIncremental(false)), []))
    ensures WordIs(w, 'G', 91.0) ==> Predict(Some(w)) == Some(Prediction(Some(SetIncremental(true)), []))
  {
  }

  /** An integral G54 … G59 selects coordinate system G − 54; a fractional one (G59.1) is
      not watched. */
  lemma CoordSysMapping(w: WordMap)
    requires 'M' !in w && 'G' in w
    ensures 54.0 <= w['G'] <= 59.0 && w['G'].Floor as real == w['G'] ==>
              Predict(Some(w)) == Some(Prediction(Some(SelectCoordSys(w['G'] - 54.0)), []))
    ensures w['G'] == 59.1 ==> Predict(Some(w)) == None
  {
  }

  /** M2 and M30 win over every G branch on the same line, and queue the two report
      requests. */
  lemma ProgramEndMapping(w: WordMap)
    requires WordIs(w, 'M', 2.0) || WordIs(w, 'M', 30.0)
    ensures Predict(Some(w)) == Some(Prediction(Some(EndProgram), EndFollowUps))
  {
    assert Winner(w) == Some(ProgramEnd);
  }

  /** Follow-up commands come only with a program end. */
  lemma FollowUpsOnlyAtProgramEnd(words: Option<WordMap>)
    requires Predict(words).Some? && |Predict(words).value.followUps| > 0
    ensures Predict(words).value == Prediction(Some(EndProgram), EndFollowUps)
  {
    ProgramEndMapping(words.value);
  }

  /** A G line followed by a spindle word: the spindle closure is the one kept. */
  lemma LastBranchWins()
    ensures Predict(Some(map['G' := 20.0, 'M' := 3.0])) == Some(Prediction(Some(SetSpindle(true)), []))
  {
    var w := map['G' := 20.0, 'M' := 3.0];
    assert Matches(w, SpindleMode) && !Matches(w, CoolantMode);
  }

  /** Every closure the predictor builds can be run on a well-formed state. */
  lemma PredictedEffectsApplicable(words: Option<WordMap>)
    requires Predict(words).Some?
    ensures Applicable(Predict(words).value.effect.value)
  {
  }

  /** The corrected M7 / M8 / M9 branch: mist, flood, and off, none of them announced. */
  lemma CoolantMapping(m: Machine, w: WordMap)
    requires WellFormed(m)
    ensures WordIs(w, 'M', 7.0) ==> Predict(Some(w)).value.effect == Some(SetCoolant(Mist))
    ensures WordIs(w, 'M', 8.0) ==> Predict(Some(w)).value.effect == Some(SetCoolant(Flood))
    ensures WordIs(w, 'M', 9.0) ==> Predict(Some(w)).value.effect == Some(SetCoolant(CoolantOff))
    ensures WordIs(w, 'M', 9.0) ==> ApplyEffect(m, SetCoolant(CoolantOff)) == Applied(m.(coolant := CoolantOff), false)
    ensures ApplyEffect(m, SetCoolant(Mist)).machine.coolant == Mist
  {
    if WordIs(w, 'M', 7.0) || WordIs(w, 'M', 8.0) || WordIs(w, 'M', 9.0) {
      assert Winner(w) == Some(CoolantMode);
    }
  }

  /** Where the predictor as written returns at all, it agrees with the corrected one. */
  lemma AsWrittenAgreesWhenItReturns(words: Option<WordMap>)
    requires PredictAsWritten(words).Success?
    ensures PredictAsWritten(words).value == Predict(words)
  {
  }

  /** The defect: a plain `G20` line makes the predictor as written throw (so the line is
      never written and its waiter never settles), where the evident intent is a deferred
      switch to inches. */
  lemma WordmaoCounterexample()
    ensures PredictAsWritten(Some(map['G' := 20.0])) == Failure(ReferenceError)
    ensures Predict(Some(map['G' := 20.0])) == Some(Prediction(Some(SetUnits(Inches)), []))
  {
    UnitsMapping(map['G' := 20.0]);
  }
}
