/** A point on the map, in fixed-point degrees. */
module Coords {

  datatype Coordinates = Coordinates(latitude: int, longitude: int) {
    predicate IsEmpty() {
      longitude <= 0 && latitude <= 0
    }
  }
}
