# Flight-log telemetry tracks, modelled in Dafny

The flight-log replay view (`src/LogPx4.tsx`) turns four recorded telemetry
arrays into time-indexed properties for a 3D renderer:

- the **position track**, one sample per position row with a uniform altitude
  offset;
- the **orientation track**, a step function over attitude rows whose
  quaternions are sign-flipped on ingestion and then rotated by one frame
  correction derived from the take-off origin; there is no track without an
  origin;
- the **flight-mode track**, a step function over mode labels;
- the **manual-control track**, a step function over four-axis setpoints that,
  as written, takes its stop times from the flight-mode array.

In a step function, sample i's payload holds on the half-open interval
`[t_i, t_(i+1))`: start included, stop excluded. The last sample has no
successor and yields no interval. The view renders only once the replay
window and the take-off origin are known.

The model works over already-parsed timestamps (`Time = int`) and exact
`real` numbers. An interval collection is the sequence of intervals in the
order they were added. A lookup (`Timeline.ValueAt`) returns the payload of
the first interval containing a time, or `None` for "no data".

Modules:

- `Wrappers` (`wrappers.dfy`): `Option`.
- `Timeline` (`timeline.dfy`): intervals and lookup, plus the generic
  forEach/next loop `StepsFrom` that three builders share. It also defines
  `StepTrack`, the reference definition of a step function, and proves its
  lookup properties: inside, outside, no gaps and no overlaps.
- `Telemetry` (`telemetry.dfy`): the row types of the four arrays, and
  attitude ingestion with its sign flip.
- `LogPx4` (`logpx4.dfy`): the four builders, the corrected manual-control
  builder and the render gate.

## Model

| member | source | states |
|---|---|---|
| Timeline.StepsFrom | src/LogPx4.tsx:191-206 | The forEach-with-index loop from position `index`: it yields one interval per sample that has a successor, so n samples give n-1 intervals. Interval k is `[t_(index+k), t_(index+k+1))` with start included, stop excluded and the payload of sample index+k. |
| Timeline.StepTrackAbuts | src/LogPx4.tsx:192-204 | In a step track, interval i stops exactly where interval i+1 starts. Interval i starts at sample i's time and carries sample i's payload, so intervals appear in input order. |
| Timeline.StepIntervalNonEmpty | src/LogPx4.tsx:197-203 | A step interval holds at some instant if and only if sample i is strictly earlier than sample i+1. Duplicate or out-of-order timestamps are passed through unchecked: the builder adds intervals that never hold. |
| Timeline.StepTrackDisjoint | src/LogPx4.tsx:197-204 | When timestamps strictly increase, no instant lies in two intervals of a step track. |
| Timeline.StepTrackValueInside | src/LogPx4.tsx:197-204 | When timestamps strictly increase, a lookup at any t in `[t_i, t_(i+1))` returns sample i's payload. At t_(i+1) the next interval takes over. |
| Timeline.StepTrackValueOutside | src/LogPx4.tsx:191-206 | When timestamps strictly increase, a lookup before the first sample, or at or after the last sample, returns no data. The last sample contributes no interval of its own. |
| Timeline.StepTrackCovers | src/LogPx4.tsx:191-206 | A lookup at any time in `[t_0, t_(n-1))` finds some payload, so the step track has no gaps. |
| Telemetry.Ingest | src/LogPx4.tsx:160-165 | Applying the sign flip again to the ingested quaternion returns the raw components of the row. |
| Telemetry.SignFlipInvolution | src/LogPx4.tsx:160-165 | Negating components 2 and 3 twice returns the original quaternion. |
| LogPx4.ComputePositionProperty | src/LogPx4.tsx:115-129 | Exactly one sample per position row, in row order. Each sample keeps the row's time, longitude and latitude; its height is the row altitude plus the same `alt_offset` for every row. |
| LogPx4.PositionOffsetLinear | src/LogPx4.tsx:118-126 | Building with offset a+b equals building with a and then raising every sample by b. In particular, a track built with offset o is the zero-offset track raised by o. |
| LogPx4.PositionScenario | src/LogPx4.tsx:118-126 | Two rows with altitudes 100 and 110 and offset 5 give samples at the same two times with altitudes 105 and 115. |
| LogPx4.ComputeOrientationProperty | src/LogPx4.tsx:131-186 | The result is none if and only if no take-off origin is set. Otherwise n attitude rows give n-1 intervals. Interval i is `[t_i, t_(i+1))` and carries the correction derived from that one origin, applied to row i's sign-flipped quaternion. |
| LogPx4.OrientationIsStepTrack | src/LogPx4.tsx:158-183 | Given an origin, the orientation track is the step function over the corrected attitude samples, and its intervals abut. |
| LogPx4.ComputeFlightModesProperty | src/LogPx4.tsx:188-209 | n flight-mode rows give n-1 intervals, and none when n <= 1. Interval i is `[t_i, t_(i+1))` with start included, stop excluded and row i's mode label. |
| LogPx4.FlightModesIsStepTrack | src/LogPx4.tsx:191-206 | The flight-mode track is the step function over the mode samples, and its intervals abut. |
| LogPx4.FlightModeInside | src/LogPx4.tsx:191-206 | When mode timestamps strictly increase, the mode in force at t is row i's label whenever t_i <= t < t_(i+1). |
| LogPx4.FlightModeOutside | src/LogPx4.tsx:191-206 | When mode timestamps strictly increase, there is no mode before the first row or from the last row's time on. |
| LogPx4.FlightModeCovered | src/LogPx4.tsx:191-206 | Some mode is in force at every time from the first row's time up to the last row's time. |
| LogPx4.FlightModeScenario | src/LogPx4.tsx:191-206 | Modes A, B, C at times 0, 10, 20 give `[0,10) -> A` and `[10,20) -> B`. A lookup at 10 gives B, and a lookup at 20 gives no data. |
| LogPx4.ManualControlFrom | src/LogPx4.tsx:214-237 | The manual-control loop from position `index`: setpoint k yields an interval only when the flight-mode array has an entry k+1. The interval starts at setpoint k's time, stops at flight mode k+1's time, and carries setpoint k's four axes. |
| LogPx4.ComputeManualControlSetpointsProperty | src/LogPx4.tsx:211-240 | Interval i exists exactly when i < number of setpoints and i+1 < number of flight modes. It spans from setpoint i's time to flight mode i+1's time and carries components 1-4 of setpoint i. |
| LogPx4.ManualControlCorrected | src/LogPx4.tsx:214-237 | With the stop taken from the next setpoint, the manual-control track is the step function over the setpoints: n setpoints give n-1 abutting intervals. |
| LogPx4.ManualControlAgreesWhenAligned | src/LogPx4.tsx:214-218 | The as-written and corrected tracks are equal when the flight-mode array has the setpoints' length and, after the first entry, the same timestamps. |
| LogPx4.ManualControlStopFromFlightModes | src/LogPx4.tsx:216-218 | Example: setpoints at 100 and 200, flight modes at 0, 50 and 60. As written, both setpoints get intervals, both stopping before they start, so a lookup at 150 finds no data. The corrected track returns the first setpoint there. |
| LogPx4.Render | src/LogPx4.tsx:242-259 | The view renders if and only if start time, stop time and take-off origin are all set. Empty tracks do not stop rendering. The rendered window is that start and stop, the rendered orientation track is the one built from that origin, and the rendered position track is the whole zero-offset track: one sample per row with the row's time, longitude, latitude and altitude. |

## Left out

- Timestamp parsing (`JulianDate.fromIso8601`). Timestamps are already-parsed integers, and a malformed timestamp is not modelled.
- Floating-point arithmetic. Coordinates, altitudes and quaternion components are exact reals. The altitude linearity therefore holds exactly here, but only within rounding in the source.
- The frame rotation. Building the east-north-up frame at the origin, the 90° turn about the vertical axis, the matrix-to-quaternion conversion and `Quaternion.multiply` are the renderer's floating-point code. They become the parameter `correction: TakeOff -> Quaternion -> Quaternion`, which is applied to every ingested quaternion with the same origin. As in the source, nothing is normalised. The origin is built with `Cartesian3.fromRadians(takeOff.position.x, takeOff.position.y)`, which reads Cartesian metres as radians. This is hidden inside the opaque correction and not modelled.
- `Cartesian3.fromDegrees`. A position sample holds the degrees and metres handed to it, not the Earth-fixed point it returns.
- The renderer's interval storage. `TimeIntervalCollection.addInterval` sorts intervals, merges touching intervals with equal data and drops an empty interval instead of storing it, and `SampledPositionProperty` sorts and interpolates samples. Tracks are modelled as the sequence of intervals handed to `addInterval`, in that order, so counts and shapes describe the added intervals rather than the stored collection. The lookup is a first-match scan, which agrees with the renderer's search on ordered, disjoint collections. The lookup lemmas state their results at that level.
- Terrain sampling and the asynchronous position update (`sampleTerrainMostDetailed(...).then`, lines 100-110). This is an asynchronous foreign call that mutates an entity reference.
- Rendering and clock configuration: shuttle-ring ticks, timeline zoom, `Viewer`, `Clock`, `Globe`, `Entity`, `ModelGraphics` and `PathGraphics`, plus the hard-coded start, stop and take-off values set in the first effect. None of these has behaviour beyond wiring.
- The flight-mode and manual-control tracks are built in the view but never handed to the renderer. `Render` therefore only records that their presence never blocks rendering.
- Re-deriving the frame correction from the same origin gives the same value automatically, because the model is a pure function.
- LogPx4.Render: rendering waits for the start time, stop time and take-off origin, not for non-empty tracks. The property objects are always present, so empty arrays still render.

## Findings

| source | as written | input that shows it | evidently intended | confidence | as-written member | corrected member |
|---|---|---|---|---|---|---|
| src/LogPx4.tsx:216-218 | The stop time of manual-control interval i is read from `flight_modes[i + 1]`, and the existence of the interval depends on the flight-mode array's length. | Setpoints at times 100 and 200, flight modes at 0, 50 and 60. The added intervals are `[100, 50)` and `[200, 60)`: both stop before they start, the last setpoint is given an interval, and at 150 there is no data. | The stop is read from `manual_control_setpoints[i + 1]`, as in the flight-mode and attitude builders. This gives n-1 abutting intervals over the setpoints' own timestamps. | high; not executed | LogPx4.ManualControlStopFromFlightModes | LogPx4.ManualControlCorrected |
