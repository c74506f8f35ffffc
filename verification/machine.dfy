/** The machine state the TinyG engine keeps (the fields of the controller object that
    the status merger and the deferred gcode effects write), and the status-report key
    names it tracks. Axis-indexed fields hold one entry per axis label x, y, z, a, b, c. */
module MachineState {
  import opened Common
  import opened Json

  const AxisLabels: string := "xyzabc"
  const AxisCount: nat := 6
  const CoordSystemCount: nat := 6

  /** `this.units`: never assigned until a report or a G20/G21 effect sets it. */
  datatype Units = UnitsUnset | Inches | Millimetres

  /** `this.coolant`: `false`, `1` (M7, mist) or `2` (M8, flood). */
  datatype Coolant = CoolantOff | Mist | Flood

  /** One row of `coordSysOffsets`: an array of per-axis offsets whose unset slots are holes. */
  type OffsetRow = seq<Option<JVal>>

  /** The per-axis part of the state. */
  datatype Axes = Axes(
    mpos: seq<JVal>,                      // machine position
    offset: seq<JVal>,                    // G92 offset
    storedPositions: seq<seq<JVal>>,      // G28 and G30 positions
    homed: seq<bool>,
    coordSysOffsets: map<real, OffsetRow> // keyed by array index (0 is G54); any number can be a key
  )

  /** The run-state flags the `stat` code drives. */
  datatype RunFlags = RunFlags(
    ready: bool,
    paused: bool,
    moving: bool,
    error: bool,
    programRunning: bool,
    errorData: string                     // "" stands for an unset (falsy) value
  )

  datatype Machine = Machine(
    axes: Axes,
    offsetEnabled: bool,
    activeCoordSys: Option<Number>,       // null, or the coordinate-system index
    units: Units,
    feed: JVal,
    incremental: bool,
    line: JVal,                           // last reported gcode line number
    plannerQueueFree: JVal,
    plannerQueueSize: JVal,
    spindle: bool,
    coolant: Coolant,
    flags: RunFlags,
    statusReport: Object                  // `currentStatusReport`
  )

  /** The shape the controller's arrays have once it is constructed: one slot per axis,
      and two stored positions. */
  predicate AxesOk(a: Axes) {
    && |a.mpos| == AxisCount
    && |a.offset| == AxisCount
    && |a.storedPositions| == 2
    && |a.storedPositions[0]| == AxisCount
    && |a.storedPositions[1]| == AxisCount
    && |a.homed| == AxisCount
    && forall k :: k in a.coordSysOffsets ==> |a.coordSysOffsets[k]| == AxisCount
  }

  predicate WellFormed(m: Machine) {
    AxesOk(m.axes)
  }

  /** The per-axis array `[0, 0, 0, 0, 0, 0]` (`zeropoint`). */
  function ZeroPoint(): (r: seq<JVal>)
    ensures |r| == AxisCount
    ensures forall i :: 0 <= i < AxisCount ==> r[i] == JNum(0.0)
  {
    seq(AxisCount, _ => JNum(0.0))
  }

  /** Status-report key of an axis-specific variable: `mpo` + `x` is `mpox`. */
  function AxisKey(prefix: string, axis: nat): string
    requires axis < AxisCount
  {
    prefix + [AxisLabels[axis]]
  }

  /** Prefix of coordinate system `csys`'s offset keys: `g54` … `g59`. */
  function CoordSysPrefix(csys: nat): string
    requires csys < CoordSystemCount
  {
    "g5" + [['4', '5', '6', '7', '8', '9'][csys]]
  }
}
