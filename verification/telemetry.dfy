/** The rows of the four recorded telemetry arrays and the geometric values
    the builders make from them. Timestamps are already parsed; numbers are
    exact reals. */
module Telemetry {
  import opened Timeline

  datatype Cartesian3 = Cartesian3(x: real, y: real, z: real)

  /** The four components handed to the renderer's `Cartesian4.fromElements`. */
  datatype Cartesian4 = Cartesian4(x: real, y: real, z: real, w: real)

  /** A quaternion in the renderer's component order (x, y, z, w). */
  datatype Quaternion = Quaternion(x: real, y: real, z: real, w: real)

  /** The arguments handed to `Cartesian3.fromDegrees`: degrees and metres. */
  datatype Geodetic = Geodetic(longitude: real, latitude: real, height: real)

  /** A row of the position array: time, longitude, latitude, altitude. */
  datatype PositionRow = PositionRow(time: Time, longitude: real, latitude: real, altitude: real)

  /** A row of the attitude array: time and four raw quaternion components. */
  datatype AttitudeRow = AttitudeRow(time: Time, q1: real, q2: real, q3: real, q4: real)

  /** A row of the flight-mode array: time and mode label. */
  datatype FlightModeRow = FlightModeRow(time: Time, mode: string)

  /** A row of the manual-control-setpoint array: time and four control axes. */
  datatype SetpointRow = SetpointRow(time: Time, s1: real, s2: real, s3: real, s4: real)

  /** The take-off record: ground altitude and the launch position. */
  datatype TakeOff = TakeOff(alt: real, position: Cartesian3)

  /** The frame-handedness correction: the second and third components
      change sign, the first and fourth are kept. */
  function SignFlip(q: Quaternion): Quaternion
  {
    Quaternion(q.x, -q.y, -q.z, q.w)
  }

  lemma SignFlipInvolution(q: Quaternion)
    ensures SignFlip(SignFlip(q)) == q
  {
  }

  /** The raw attitude components, in row order. */
  function Raw(row: AttitudeRow): Quaternion
  {
    Quaternion(row.q1, row.q2, row.q3, row.q4)
  }

  /** The quaternion an attitude row is ingested as; flipping it again gives
      back the raw components. */
  function Ingest(row: AttitudeRow): (q: Quaternion)
    ensures SignFlip(q) == Raw(row)
  {
    SignFlip(Raw(row))
  }
}
