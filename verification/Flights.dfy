/** Flight events as values, and the two relations between flights that the
    dependency graph is built from. */
module Flights {

  datatype Option<+T> = None | Some(value: T)

  /** A flight_key: the identity of a flight and of its node. */
  datatype Key = Key(name: string)

  datatype EventType = Departure | Arrival | Delay | GateChange | Cancellation | Diversion

  datatype Status = Scheduled | Active | Landed | Cancelled | Diverted

  /** The part of a flight event that no operation ever writes.  `key` is the
      event's flight_key; times are integers. */
  datatype Info = Info(
    key: Key,
    flightId: string,
    airline: string,
    number: string,
    origin: string,
    destination: string,
    aircraft: Option<string>,
    dep: int,
    arr: int,
    actualArr: Option<int>,
    status: Status,
    passengers: Option<int>,
    stamp: int)

  /** A flight event: the fixed part and the three fields the engine overwrites.
      The event's validator keeps the delay non-negative. */
  datatype Flight = Flight(info: Info, gate: Option<string>, delay: nat, etype: EventType)

  /** Python truthiness of an optional string: neither None nor "". */
  predicate Named(x: Option<string>) {
    x.Some? && x.value != ""
  }

  /** The two time windows meet, end points included. */
  predicate Overlaps(a: Flight, b: Flight) {
    !(a.info.arr < b.info.dep || b.info.arr < a.info.dep)
  }

  /** Two windows meet exactly when some instant lies in both, the end points of each
      included. */
  lemma OverlapsIsShared(a: Flight, b: Flight)
    requires a.info.dep <= a.info.arr && b.info.dep <= b.info.arr
    ensures Overlaps(a, b) <==> exists t :: During(a.info, t) && During(b.info, t)
  {
    if Overlaps(a, b) {
      var t := if a.info.dep <= b.info.dep then b.info.dep else a.info.dep;
      assert During(a.info, t) && During(b.info, t);
    }
  }

  /** The instant lies in the flight's window. */
  predicate During(i: Info, t: int) {
    i.dep <= t <= i.arr
  }

  predicate SameAircraft(a: Flight, b: Flight) {
    Named(a.info.aircraft) && Named(b.info.aircraft) && a.info.aircraft == b.info.aircraft
  }

  /** Both flights stand at one named gate in overlapping windows. */
  predicate Conflict(a: Flight, b: Flight) {
    Named(a.gate) && Named(b.gate) && a.gate == b.gate && Overlaps(a, b)
  }

  /** When the flight is counted as landed, for pruning. */
  function LandedAt(i: Info): int {
    if i.actualArr.Some? then i.actualArr.value else i.arr
  }
}
