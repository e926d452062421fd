/** The telemetry track builders of the flight-log replay view: position
    samples, and step-function tracks for attitude, flight mode and manual
    control, plus the decision whether the view renders at all. */
module LogPx4 {
  import opened Wrappers
  import opened Timeline
  import opened Telemetry

  function Min(a: int, b: int): int
  {
    if a <= b then a else b
  }

  // ---------------------------------------------------------------------
  // Position track

  /** One position sample per row, in row order: longitude and latitude as
      recorded, the altitude raised by the same `altOffset` for every row. */
  function ComputePositionProperty(rows: seq<PositionRow>, altOffset: real): (r: seq<Sample<Geodetic>>)
    ensures |r| == |rows|
    ensures forall i :: 0 <= i < |rows| ==>
      && r[i].time == rows[i].time
      && r[i].value.longitude == rows[i].longitude
      && r[i].value.latitude == rows[i].latitude
      && r[i].value.height == rows[i].altitude + altOffset
  {
    if |rows| == 0 then []
    else
      var row := rows[0];
      [Sample(row.time, Geodetic(row.longitude, row.latitude, row.altitude + altOffset))]
        + ComputePositionProperty(rows[1..], altOffset)
  }

  /** Every sample of a position track raised by `d` metres. */
  function Raise(track: seq<Sample<Geodetic>>, d: real): seq<Sample<Geodetic>>
  {
    seq(|track|, i requires 0 <= i < |track| =>
      Sample(track[i].time, track[i].value.(height := track[i].value.height + d)))
  }

  /** The altitude offset acts linearly: building with `a + b` is building
      with `a` and raising every sample by `b` afterwards; in particular a
      track built with offset `o` is the zero-offset track raised by `o`. */
  lemma PositionOffsetLinear(rows: seq<PositionRow>, a: real, b: real)
    ensures ComputePositionProperty(rows, a + b) == Raise(ComputePositionProperty(rows, a), b)
    ensures ComputePositionProperty(rows, b) == Raise(ComputePositionProperty(rows, 0.0), b)
  {
    var lhs := ComputePositionProperty(rows, a + b);
    var rhs := Raise(ComputePositionProperty(rows, a), b);
    assert forall i :: 0 <= i < |lhs| ==> lhs[i] == rhs[i];
    var shifted := ComputePositionProperty(rows, b);
    var zero := Raise(ComputePositionProperty(rows, 0.0), b);
    assert forall i :: 0 <= i < |shifted| ==> shifted[i] == zero[i];
  }

  /** Two rows 10 s apart with offset 5 give samples at both times with
      altitudes 105 and 115. */
  lemma PositionScenario()
    ensures
      var rows := [PositionRow(0, 151.0, -33.0, 100.0), PositionRow(10_000_000, 151.01, -33.0, 110.0)];
      ComputePositionProperty(rows, 5.0)
        == [Sample(0, Geodetic(151.0, -33.0, 105.0)), Sample(10_000_000, Geodetic(151.01, -33.0, 115.0))]
  {
  }

  // ---------------------------------------------------------------------
  // Orientation track

  /** Attitude rows as samples whose payload is the ingested quaternion
      passed through the frame correction. */
  function AttitudeSamples(rows: seq<AttitudeRow>, rotate: Quaternion -> Quaternion): (s: seq<Sample<Quaternion>>)
    ensures |s| == |rows|
  {
    seq(|rows|, i requires 0 <= i < |rows| => Sample(rows[i].time, rotate(Ingest(rows[i]))))
  }

  /** No track without a take-off origin. With one, interval i spans
      [t_i, t_(i+1)) and carries sample i's sign-flipped quaternion under the
      single correction derived from that origin; n rows give n-1 intervals. */
  function ComputeOrientationProperty(takeOff: Option<TakeOff>, rows: seq<AttitudeRow>,
                                      correction: TakeOff -> Quaternion -> Quaternion)
    : (r: Option<seq<Interval<Quaternion>>>)
    ensures r.None? <==> takeOff.None?
    ensures r.Some? ==> |r.value| == (if |rows| == 0 then 0 else |rows| - 1)
    ensures r.Some? ==> forall i :: 0 <= i < |r.value| ==>
      r.value[i] == HalfOpen(rows[i].time, rows[i + 1].time, correction(takeOff.value)(Ingest(rows[i])))
  {
    if takeOff.None? then None
    else
      var s := AttitudeSamples(rows, correction(takeOff.value));
      var r := Steps(s);
      assert forall i :: 0 <= i < |r| ==> r[i] == HalfOpen(s[i].time, s[i + 1].time, s[i].value);
      Some(r)
  }

  /** With an origin, the orientation track is the step function over the
      corrected attitude samples, so its intervals abut. */
  lemma OrientationIsStepTrack(takeOff: TakeOff, rows: seq<AttitudeRow>,
                               correction: TakeOff -> Quaternion -> Quaternion)
    ensures StepTrack(ComputeOrientationProperty(Some(takeOff), rows, correction).value,
                      AttitudeSamples(rows, correction(takeOff)))
    ensures Abutting(ComputeOrientationProperty(Some(takeOff), rows, correction).value)
  {
  }

  // ---------------------------------------------------------------------
  // Flight-mode track

  function ModeSamples(rows: seq<FlightModeRow>): (s: seq<Sample<string>>)
    ensures |s| == |rows|
  {
    seq(|rows|, i requires 0 <= i < |rows| => Sample(rows[i].time, rows[i].mode))
  }

  /** n flight-mode rows give n-1 intervals (none for n <= 1); interval i
      spans [t_i, t_(i+1)) and carries row i's mode label. */
  function ComputeFlightModesProperty(rows: seq<FlightModeRow>): (r: seq<Interval<string>>)
    ensures |r| == if |rows| == 0 then 0 else |rows| - 1
    ensures forall i :: 0 <= i < |r| ==> r[i] == HalfOpen(rows[i].time, rows[i + 1].time, rows[i].mode)
  {
    var s := ModeSamples(rows);
    var r := Steps(s);
    assert forall i :: 0 <= i < |r| ==> r[i] == HalfOpen(s[i].time, s[i + 1].time, s[i].value);
    r
  }

  /** The flight-mode track is the step function over the mode samples; its
      intervals abut and start in row order. */
  lemma FlightModesIsStepTrack(rows: seq<FlightModeRow>)
    ensures StepTrack(ComputeFlightModesProperty(rows), ModeSamples(rows))
    ensures Abutting(ComputeFlightModesProperty(rows))
  {
  }

  /** Over increasing timestamps, the mode in force at any t with
      t_i <= t < t_(i+1) is row i's label. */
  lemma FlightModeInside(rows: seq<FlightModeRow>, i: nat, t: Time)
    requires Increasing(ModeSamples(rows))
    requires i + 1 < |rows| && rows[i].time <= t < rows[i + 1].time
    ensures ValueAt(ComputeFlightModesProperty(rows), t) == Some(rows[i].mode)
  {
    FlightModesIsStepTrack(rows);
    StepTrackValueInside(ComputeFlightModesProperty(rows), ModeSamples(rows), i, t);
  }

  /** Over increasing timestamps there is no mode before the first row, nor
      from the last row's time on. */
  lemma FlightModeOutside(rows: seq<FlightModeRow>, t: Time)
    requires Increasing(ModeSamples(rows))
    requires |rows| == 0 || t < rows[0].time || rows[|rows| - 1].time <= t
    ensures ValueAt(ComputeFlightModesProperty(rows), t) == None
  {
    FlightModesIsStepTrack(rows);
    StepTrackValueOutside(ComputeFlightModesProperty(rows), ModeSamples(rows), t);
  }

  /** Some mode is in force at every time from the first row's time up to
      the last row's. */
  lemma FlightModeCovered(rows: seq<FlightModeRow>, t: Time)
    requires 0 < |rows| && rows[0].time <= t < rows[|rows| - 1].time
    ensures ValueAt(ComputeFlightModesProperty(rows), t).Some?
  {
    FlightModesIsStepTrack(rows);
    StepTrackCovers(ComputeFlightModesProperty(rows), ModeSamples(rows), t);
  }

  /** Modes A, B, C at t0 < t1 < t2 give [t0,t1) -> A and [t1,t2) -> B; at
      t2 there is no data, neither C nor B. */
  lemma FlightModeScenario()
    ensures
      var rows := [FlightModeRow(0, "A"), FlightModeRow(10, "B"), FlightModeRow(20, "C")];
      var r := ComputeFlightModesProperty(rows);
      && r == [HalfOpen(0, 10, "A"), HalfOpen(10, 20, "B")]
      && ValueAt(r, 5) == Some("A")
      && ValueAt(r, 10) == Some("B")
      && ValueAt(r, 20) == None
  {
  }

  // ---------------------------------------------------------------------
  // Manual-control track

  function Setpoint(row: SetpointRow): Cartesian4
  {
    Cartesian4(row.s1, row.s2, row.s3, row.s4)
  }

  /** The manual-control loop as written, from position `index` on: setpoint
      `index` yields an interval when the FLIGHT-MODE array has an entry at
      `index + 1`, and that flight-mode entry's time is the stop. */
  function ManualControlFrom(setpoints: seq<SetpointRow>, flightModes: seq<FlightModeRow>, index: nat)
    : (r: seq<Interval<Cartesian4>>)
    requires index <= |setpoints|
    ensures |r| == if index < |setpoints| && index + 1 < |flightModes|
                   then Min(|setpoints|, |flightModes| - 1) - index else 0
    ensures forall k :: 0 <= k < |r| ==>
      r[k] == HalfOpen(setpoints[index + k].time, flightModes[index + k + 1].time, Setpoint(setpoints[index + k]))
    decreases |setpoints| - index
  {
    if index == |setpoints| then []
    else
      var cur := setpoints[index];
      var added := if index + 1 < |flightModes|
                   then [HalfOpen(cur.time, flightModes[index + 1].time, Setpoint(cur))] else [];
      added + ManualControlFrom(setpoints, flightModes, index + 1)
  }

  /** The manual-control track as the source builds it: interval i exists
      exactly for i < |setpoints| with i + 1 < |flightModes|; it starts at
      setpoint i's time, stops at flight-mode i+1's time, and carries
      setpoint i's four axes. */
  function ComputeManualControlSetpointsProperty(setpoints: seq<SetpointRow>, flightModes: seq<FlightModeRow>)
    : (r: seq<Interval<Cartesian4>>)
    ensures |r| == if |setpoints| == 0 || |flightModes| <= 1 then 0 else Min(|setpoints|, |flightModes| - 1)
    ensures forall i :: 0 <= i < |r| ==>
      && i < |setpoints| && i + 1 < |flightModes|
      && r[i] == HalfOpen(setpoints[i].time, flightModes[i + 1].time, Setpoint(setpoints[i]))
  {
    ManualControlFrom(setpoints, flightModes, 0)
  }

  function SetpointSamples(rows: seq<SetpointRow>): (s: seq<Sample<Cartesian4>>)
    ensures |s| == |rows|
  {
    seq(|rows|, i requires 0 <= i < |rows| => Sample(rows[i].time, Setpoint(rows[i])))
  }

  /** The manual-control track with the stop taken from the next setpoint,
      the same step function as the other tracks: n setpoints give n-1
      abutting intervals [t_i, t_(i+1)) carrying setpoint i. */
  function ManualControlCorrected(setpoints: seq<SetpointRow>): (r: seq<Interval<Cartesian4>>)
    ensures StepTrack(r, SetpointSamples(setpoints))
    ensures Abutting(r)
  {
    var r := Steps(SetpointSamples(setpoints));
    StepTrackAbuts(r, SetpointSamples(setpoints));
    r
  }

  /** When the flight-mode array has the setpoints' length and the same
      timestamps after the first, the track as written equals the corrected
      one; the two differ only through the borrowed stop times. */
  lemma ManualControlAgreesWhenAligned(setpoints: seq<SetpointRow>, flightModes: seq<FlightModeRow>)
    requires |flightModes| == |setpoints|
    requires forall i :: 0 < i < |setpoints| ==> flightModes[i].time == setpoints[i].time
    ensures ComputeManualControlSetpointsProperty(setpoints, flightModes) == ManualControlCorrected(setpoints)
  {
  }

  /** Setpoints at 100 and 200 with flight modes at 0, 50 and 60: the track
      as written has an interval for each setpoint, the last included, and
      both stop before they start, so at 150 there is no data; the
      corrected track holds the first setpoint there. */
  lemma ManualControlStopFromFlightModes()
    ensures
      var sp := [SetpointRow(100, 1.0, 0.0, 0.0, 0.0), SetpointRow(200, 0.0, 1.0, 0.0, 0.0)];
      var fm := [FlightModeRow(0, "MANUAL"), FlightModeRow(50, "POSCTL"), FlightModeRow(60, "AUTO")];
      var asWritten := ComputeManualControlSetpointsProperty(sp, fm);
      && asWritten == [HalfOpen(100, 50, Cartesian4(1.0, 0.0, 0.0, 0.0)), HalfOpen(200, 60, Cartesian4(0.0, 1.0, 0.0, 0.0))]
      && ValueAt(asWritten, 150) == None
      && ValueAt(ManualControlCorrected(sp), 150) == Some(Cartesian4(1.0, 0.0, 0.0, 0.0))
  {
  }

  // ---------------------------------------------------------------------
  // Render gate

  /** What the view hands the renderer: the replay window, the position
      track and the orientation track. */
  datatype Scene = Scene(start: Time, stop: Time, position: seq<Sample<Geodetic>>,
                         orientation: seq<Interval<Quaternion>>)

  /** The view renders only when the start and stop times and the take-off
      origin are all set. The position, flight-mode and manual-control
      properties are objects whatever their arrays hold, so an empty track
      never stops rendering. The position track is built with offset zero. */
  function Render(startTime: Option<Time>, stopTime: Option<Time>, takeOff: Option<TakeOff>,
                  positions: seq<PositionRow>, attitudes: seq<AttitudeRow>,
                  correction: TakeOff -> Quaternion -> Quaternion)
    : (r: Option<Scene>)
    ensures r.Some? <==> startTime.Some? && stopTime.Some? && takeOff.Some?
    ensures r.Some? ==> r.value.start == startTime.value && r.value.stop == stopTime.value
    ensures r.Some? ==> |r.value.position| == |positions|
    ensures r.Some? ==> forall i :: 0 <= i < |positions| ==> r.value.position[i].value.height == positions[i].altitude
    ensures r.Some? ==> r.value.position == ComputePositionProperty(positions, 0.0)
    ensures r.Some? ==> r.value.orientation == ComputeOrientationProperty(takeOff, attitudes, correction).value
  {
    var position := ComputePositionProperty(positions, 0.0);
    var orientation := ComputeOrientationProperty(takeOff, attitudes, correction);
    if startTime.Some? && stopTime.Some? && orientation.Some?
    then Some(Scene(startTime.value, stopTime.value, position, orientation.value))
    else None
  }
}
