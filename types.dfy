/** Fixed-width integers and the two enumerations of the DBSCAN header. */
module Types {

  /** C `uint8_t`. */
  newtype uint8 = x: int | 0 <= x < 0x100

  /** C `uint16_t`: counters, point indices and the prediction result. */
  newtype uint16 = x: int | 0 <= x < 0x1_0000

  /** The `DISTANCE` enumeration; the selector itself is a `uint8_t`. */
  const EUCLIDIAN: uint8 := 0
  const MINKOVSKI: uint8 := 1
  const MANHATTAN: uint8 := 2
  const CHEBYCHEV: uint8 := 3
  const CANBERRA: uint8 := 4

  /** The `TYPE` enumeration: the state of one point during a clustering run. */
  datatype PointType = NotVisited | Visited | Noise

  /** The value a `TYPE` tag has when it is stored in the `uint8_t` vector `_type`. */
  function TypeCode(t: PointType): (c: uint8)
    ensures c < 3
    ensures c == 0 <==> t == NotVisited
    ensures c == 1 <==> t == Visited
  {
    match t
    case NotVisited => 0
    case Visited => 1
    case Noise => 2
  }

  /** Reads a stored tag back; codes outside the enumeration have no tag. */
  function TypeOfCode(c: uint8): (t: PointType)
    requires c < 3
    ensures TypeCode(t) == c
  {
    if c == 0 then NotVisited else if c == 1 then Visited else Noise
  }
}
