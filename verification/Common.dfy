/** Identifiers, places and the optional value shared by every service. */
module Common {

  datatype Option<+T> = None | Some(value: T)

  // UUIDs are only ever compared, so numbers stand for them.
  type OrderId = nat
  type DriverId = nat

  datatype Point = Point(latitude: real, longitude: real)

  datatype DriverStatus = Offline | Available | Offered | Busy

  ghost predicate NoDuplicates<T>(s: seq<T>) {
    forall i, j | 0 <= i < j < |s| :: s[i] != s[j]
  }
}
