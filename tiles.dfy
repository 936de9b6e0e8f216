/** The twelve tile kinds a cell of the circuit image can hold. */
module Tiles {

  /** The kinds, in declaration order. */
  datatype Tile =
    | None
    | Lamp
    | Lever
    | Wire
    | WireCorner
    | WireJunctionT
    | WireCrossover
    | GateAnd
    | GateNot
    | GateOr
    | GateXor
    | Clamp

  /** Every kind once, in declaration order. */
  const AllTiles: seq<Tile> :=
    [None, Lamp, Lever, Wire, WireCorner, WireJunctionT, WireCrossover,
     GateAnd, GateNot, GateOr, GateXor, Clamp]

  /** The numeric value of a kind: the enumeration starts at 0 and counts up. */
  function Ordinal(t: Tile): (n: nat)
    ensures n < |AllTiles| && AllTiles[n] == t
  {
    match t
    case None => 0
    case Lamp => 1
    case Lever => 2
    case Wire => 3
    case WireCorner => 4
    case WireJunctionT => 5
    case WireCrossover => 6
    case GateAnd => 7
    case GateNot => 8
    case GateOr => 9
    case GateXor => 10
    case Clamp => 11
  }

  /** Cells the tracer walks through (and may clamp afterwards). */
  predicate IsPassThrough(t: Tile) {
    t == Wire || t == WireCorner || t == WireJunctionT || t == WireCrossover
  }

  /** Cells that become a component when the grid is scanned. */
  predicate IsComponentTile(t: Tile) {
    t == GateAnd || t == GateNot || t == GateOr || t == GateXor || t == Lamp || t == Lever
  }

  /** There are exactly twelve kinds, every kind is listed, and no two
      kinds share a value. */
  lemma KindsAreTwelveAndDistinct()
    ensures |AllTiles| == 12
    ensures forall t: Tile :: t in AllTiles
    ensures forall i, j :: 0 <= i < j < |AllTiles| ==> AllTiles[i] != AllTiles[j]
    ensures Ordinal(None) == 0 && Ordinal(Clamp) == 11
  {
    forall t: Tile ensures t in AllTiles {
      assert AllTiles[Ordinal(t)] == t;
    }
  }

  /** Values are consecutive: every value below twelve names exactly one kind. */
  lemma {:induction false} OrdinalIsBijective(n: nat)
    requires n < 12
    ensures exists t: Tile :: Ordinal(t) == n
    ensures forall t, u: Tile :: Ordinal(t) == Ordinal(u) ==> t == u
  {
    assert Ordinal(AllTiles[n]) == n;
  }
}
