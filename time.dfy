/** Time units shared by the backend and the browser code: JavaScript time values are milliseconds. */
module Time {
  const MsPerSecond: int := 1000
  const MsPerDay: int := 86_400_000
}
