/**
 * The three record types of the application and the derived record shown on the map
 * (src/types/index.ts). Points in time are milliseconds since the epoch; coordinates are
 * carried as exact reals, standing in for the source's floating-point numbers.
 */
module Types {
  import opened Wrappers

  /** A `Date`, as its millisecond value. */
  type Time = int

  datatype Coord = Coord(lat: real, lng: real)

  /** A peak as the store holds it after loading. `city` and `province` are optional fields. */
  datatype Peak = Peak(
    id: string,
    name: string,
    city: Option<string>,
    province: Option<string>,
    location: Coord,
    altitude: int,
    difficulty: int,
    description: string,
    imageUrl: Option<string>)

  datatype User = User(id: string, email: string, name: string, createdAt: Time)

  /** A check-in in the in-memory (camelCase) convention. */
  datatype Checkin = Checkin(id: string, userId: string, peakId: string, checkinTime: Time, location: Coord)

  /** A peak extended with the current user's check-in summary; `peak` holds the spread fields. */
  datatype PeakWithCheckin = PeakWithCheckin(
    peak: Peak,
    checkedIn: bool,
    checkinTime: Option<Time>,
    checkinCount: nat,
    lastCheckinTime: Option<Time>)
}
