/** The keys the models share; the source has strings here, of which only equality matters. */
module Identifiers {
  type StationId = int
  type LineId = int
  type TripId = int
}
