/** The circuit map: the pixel frame, the component table, the junction
    bookkeeping and the clamp counter, with the operations that change them. */
module CircuitMap {
  import opened Wrappers
  import opened Tiles
  import opened Exprs
  import opened Components
  import opened ComponentEvolution
  import opened Naming
  import opened Pixels
  import opened Extraction

  /** The legs of a T-junction already traced. The translator stores one
      flag per call, never a combination, so a recorded value is one of
      `Up`, `Left` and `Right`, and `HasFlag` of a single flag is equality. */
  datatype ClampDirection = None | Up | Left | Right {

    predicate HasFlag(flag: ClampDirection) {
      flag == ClampDirection.None || this == flag
    }
  }

  /** A cell only ever degrades: a wire, corner or T-junction cell may turn
      into a clamp, a crossover into a plain wire or a clamp, and no other
      cell changes. */
  predicate CellEvolves(a: Rgba, b: Rgba) {
    b == a ||
    (Decode(a).Some? && IsPassThrough(Decode(a).value) &&
     (b == ClampColour || (b == WireColour && Decode(a) == Some(WireCrossover))))
  }

  predicate GridEvolves(g0: map<(int, int), Rgba>, g1: map<(int, int), Rgba>) {
    g0.Keys == g1.Keys && forall p :: p in g0 ==> CellEvolves(g0[p], g1[p])
  }

  lemma GridEvolvesTransitive(g0: map<(int, int), Rgba>, g1: map<(int, int), Rgba>, g2: map<(int, int), Rgba>)
    requires GridEvolves(g0, g1) && GridEvolves(g1, g2)
    ensures GridEvolves(g0, g2)
  {
    ClampColoursDecode();
  }

  /** Junction entries are only ever added for cells that held a T-junction. */
  predicate JunctionsEvolve(d0: map<(int, int), ClampDirection>, d1: map<(int, int), ClampDirection>,
                            g0: map<(int, int), Rgba>) {
    forall p :: p in d1 ==> p in d0 || (p in g0 && Decode(g0[p]) == Some(WireJunctionT))
  }

  lemma JunctionsEvolveTransitive(d0: map<(int, int), ClampDirection>, d1: map<(int, int), ClampDirection>,
                                  d2: map<(int, int), ClampDirection>,
                                  g0: map<(int, int), Rgba>, g1: map<(int, int), Rgba>)
    requires GridEvolves(g0, g1)
    requires JunctionsEvolve(d0, d1, g0) && JunctionsEvolve(d1, d2, g1)
    ensures JunctionsEvolve(d0, d2, g0)
  {
    ClampColoursDecode();
  }

  /** A cell of a frame snapshot, read the way the translator reads the
      frame: outside the frame and colours outside the table are failures. */
  function TileIn(g: map<(int, int), Rgba>, x: int, y: int): Result<Tile> {
    if (x, y) !in g then Err(OutOfRange)
    else if g[(x, y)] !in Colors then Err(UnknownColour)
    else Ok(Colors[g[(x, y)]])
  }

  /** Everything a map holds, as one value. */
  datatype MapState = MapState(cells: map<(int, int), Rgba>, components: seq<Component>,
                               degraded: map<(int, int), ClampDirection>, clampCount: nat)

  /** How the state of a map may change while the translator traces from
      component `comp`: cells only degrade, junction entries only appear at
      junction cells, inputs are only set to `comp`, and the clamp counter
      never goes down. */
  predicate Evolves(s0: MapState, s1: MapState, comp: nat) {
    GridEvolves(s0.cells, s1.cells) &&
    JunctionsEvolve(s0.degraded, s1.degraded, s0.cells) &&
    TableRewired(s0.components, s1.components, comp) &&
    s0.clampCount <= s1.clampCount
  }

  lemma EvolvesReflexive(s: MapState, comp: nat)
    ensures Evolves(s, s, comp)
  {
  }

  lemma EvolvesTransitive(s0: MapState, s1: MapState, s2: MapState, comp: nat)
    requires Evolves(s0, s1, comp) && Evolves(s1, s2, comp)
    ensures Evolves(s0, s2, comp)
  {
    GridEvolvesTransitive(s0.cells, s1.cells, s2.cells);
    JunctionsEvolveTransitive(s0.degraded, s1.degraded, s2.degraded, s0.cells, s1.cells);
    TableRewiredTransitive(s0.components, s1.components, s2.components, comp);
  }

  /** The state after clamping cell (x, y). */
  function ClampedState(s: MapState, x: int, y: int): MapState {
    var t := TileIn(s.cells, x, y);
    s.(cells := s.cells[(x, y) := if t.Ok? && t.value == WireCrossover then WireColour else ClampColour],
       degraded := if t.Ok? && t.value == WireJunctionT then s.degraded - {(x, y)} else s.degraded,
       clampCount := s.clampCount + 1)
  }

  /** Cell (x, y) has been clamped since s0: the counter went up and the cell
      is now a clamp, or a plain wire where it was a crossover. */
  predicate Clamped(s0: MapState, s1: MapState, x: int, y: int) {
    s0.clampCount < s1.clampCount && (x, y) in s1.cells &&
    (s1.cells[(x, y)] == ClampColour ||
     (TileIn(s0.cells, x, y) == Ok(WireCrossover) && s1.cells[(x, y)] == WireColour))
  }

  /** A wire-like cell stays readable while the map evolves, and stays a
      crossover only if it was one. */
  lemma {:induction false} EvolvesKeepsWire(s0: MapState, s1: MapState, x: int, y: int, comp: nat)
    requires Evolves(s0, s1, comp)
    requires TileIn(s0.cells, x, y).Ok? && IsPassThrough(TileIn(s0.cells, x, y).value)
    ensures TileIn(s1.cells, x, y).Ok?
    ensures TileIn(s1.cells, x, y) == Ok(WireCrossover) ==> TileIn(s0.cells, x, y) == Ok(WireCrossover)
  {
    ClampColoursDecode();
    assert CellEvolves(s0.cells[(x, y)], s1.cells[(x, y)]);
  }

  /** Every other cell never changes while the grid evolves: an unreadable
      cell stays unreadable, and a gate, lamp, lever, clamp or empty cell
      keeps its kind. */
  lemma FixedCellStays(g0: map<(int, int), Rgba>, g1: map<(int, int), Rgba>, x: int, y: int)
    requires GridEvolves(g0, g1)
    requires !(TileIn(g0, x, y).Ok? && IsPassThrough(TileIn(g0, x, y).value))
    ensures TileIn(g1, x, y) == TileIn(g0, x, y)
  {
    if (x, y) in g0 {
      assert CellEvolves(g0[(x, y)], g1[(x, y)]);
    }
  }

  /** Clamping a wire-like cell keeps the map evolving and clamps the cell. */
  lemma {:induction false} ClampKeepsEvolving(s0: MapState, s1: MapState, x: int, y: int, comp: nat)
    requires Evolves(s0, s1, comp)
    requires TileIn(s0.cells, x, y).Ok? && IsPassThrough(TileIn(s0.cells, x, y).value)
    ensures TileIn(s1.cells, x, y).Ok?
    ensures Evolves(s0, ClampedState(s1, x, y), comp) && Clamped(s0, ClampedState(s1, x, y), x, y)
  {
    EvolvesKeepsWire(s0, s1, x, y, comp);
    var s2 := ClampedState(s1, x, y);
    ClampColoursDecode();
    assert Evolves(s1, s2, comp) by {
      assert CellEvolves(s1.cells[(x, y)], s2.cells[(x, y)]);
    }
    EvolvesTransitive(s0, s1, s2, comp);
  }

  /** Recording a leg of a junction cell keeps the map evolving. */
  lemma DegradeKeepsEvolving(s0: MapState, s1: MapState, x: int, y: int, d: ClampDirection, comp: nat)
    requires Evolves(s0, s1, comp) && TileIn(s0.cells, x, y) == Ok(WireJunctionT)
    ensures Evolves(s0, s1.(degraded := s1.degraded[(x, y) := d]), comp)
  {
  }

  class Map {
    const frame: array2<Rgba>
    var components: seq<Component>
    var clampCount: nat
    var degraded: map<(int, int), ClampDirection>

    ghost predicate Valid()
      reads this
    {
      WellFormed(components)
    }

    function Width(): nat {
      frame.Length0
    }

    function Height(): nat {
      frame.Length1
    }

    /** The frame as a value, cell by cell. */
    ghost function Cells(): (g: map<(int, int), Rgba>)
      reads frame
      ensures forall p :: p in g <==> InFrame(frame, p.0, p.1)
      ensures forall p: (int, int) :: InFrame(frame, p.0, p.1) ==> g[p] == frame[p.0, p.1]
    {
      map i, j | 0 <= i < frame.Length0 && 0 <= j < frame.Length1 :: (i, j) := frame[i, j]
    }

    /** The whole map as a value. */
    ghost function State(): (s: MapState)
      reads this, frame
      ensures forall i, j :: TileAt(frame, i, j) == TileIn(s.cells, i, j)
      ensures s.components == components && s.degraded == degraded && s.clampCount == clampCount
    {
      MapState(Cells(), components, degraded, clampCount)
    }

    constructor (frame: array2<Rgba>, components: seq<Component>)
      requires WellFormed(components)
      ensures Valid()
      ensures this.frame == frame && this.components == components
      ensures clampCount == 0 && degraded == map[]
    {
      this.frame := frame;
      this.components := components;
      clampCount := 0;
      degraded := map[];
    }

    /** Scans the frame column by column and creates one component per gate,
        lamp and lever cell; sources are named S001, S002, ... in scan order.
        A colour outside the table stops the scan. */
    static method ExtractComponents(frame: array2<Rgba>) returns (r: Result<seq<Component>>)
      ensures Scan(frame).Ok? ==> r == Ok(Scan(frame).value.components)
      ensures Scan(frame).Err? ==> r == Err(Scan(frame).error)
    {
      var sourceCount := 0;
      var found: seq<Component> := [];
      for x := 0 to frame.Length0
        invariant ScanBefore(frame, x, 0) == Ok(ScanState(found, sourceCount))
      {
        for y := 0 to frame.Length1
          invariant ScanBefore(frame, x, y) == Ok(ScanState(found, sourceCount))
        {
          var t := TileAt(frame, x, y);
          if t.Err? {
            ScanFails(frame, frame.Length0, 0);
            return Err(t.error);
          }
          match t.value {
            case GateAnd =>
              found := found + [NewMultiInputGate(x, y, Conjunction)];
            case GateNot =>
              found := found + [NewSingleInputGate(x, y, Negation)];
            case GateOr =>
              found := found + [NewMultiInputGate(x, y, Disjunction)];
            case GateXor =>
              found := found + [NewMultiInputGate(x, y, ExclusiveOr)];
            case Lamp =>
              found := found + [NewDrain(x, y)];
            case Lever =>
              sourceCount := sourceCount + 1;
              found := found + [NewSource(x, y, Var(SourceName(sourceCount)))];
            case _ =>
          }
        }
      }
      return Ok(found);
    }

    /** Builds the map of a frame: extracts its components; the junction
        bookkeeping starts empty and the clamp counter at zero. */
    static method Load(frame: array2<Rgba>) returns (r: Result<Map>)
      ensures r.Ok? <==> Scan(frame).Ok?
      ensures r.Err? ==> r.error == Scan(frame).error
      ensures r.Ok? ==> fresh(r.value) && r.value.Valid() && r.value.frame == frame
      ensures r.Ok? ==> r.value.components == Scan(frame).value.components
      ensures r.Ok? ==> r.value.clampCount == 0 && r.value.degraded == map[]
    {
      var found :- ExtractComponents(frame);
      ScanSound(frame, frame.Length0, 0);
      var m := new Map(frame, found);
      return Ok(m);
    }

    /** The recorded leg of the junction at (x, y); `None` when there is no entry. */
    function GetJunctionClampDirection(x: int, y: int): (d: ClampDirection)
      reads this
      ensures (x, y) !in degraded ==> d == ClampDirection.None
      ensures (x, y) in degraded ==> d == degraded[(x, y)]
    {
      if (x, y) in degraded then degraded[(x, y)] else ClampDirection.None
    }

    /** Clamps cell (x, y): a crossover becomes a plain wire, anything else a
        clamp; a T-junction's entry is dropped; the counter goes up by one. */
    method ClampDown(x: int, y: int)
      requires TileAt(frame, x, y).Ok?
      modifies this, frame
      ensures TileIn(old(State()).cells, x, y).Ok?
      ensures State() == ClampedState(old(State()), x, y)
    {
      ghost var g0 := Cells();
      var current := TileAt(frame, x, y).value;
      assert TileIn(g0, x, y) == Ok(current);
      var colour := if current == WireCrossover then Rgb(20, 20, 20) else Rgb(180, 0, 0);
      frame[x, y] := colour;
      if current == WireJunctionT {
        degraded := degraded - {(x, y)};
      }
      clampCount := clampCount + 1;
      assert Cells() == g0[(x, y) := colour];
    }

    /** Records in component i's flag whether its output propagated;
        nothing else changes. */
    method SetProcessed(i: nat, b: bool)
      requires i < |components|
      modifies this
      ensures components == old(components)[i := old(components)[i].(processed := b)]
      ensures Cells() == old(Cells()) && degraded == old(degraded) && clampCount == old(clampCount)
    {
      components := components[i := components[i].(processed := b)];
    }

    /** Records that one leg of the junction at (x, y) has been traced,
        replacing whatever was recorded before. */
    method DegradeJunction(x: int, y: int, direction: ClampDirection)
      modifies this
      ensures State() == old(State()).(degraded := old(degraded)[(x, y) := direction])
      ensures GetJunctionClampDirection(x, y) == direction
      ensures forall i, j :: (i, j) != (x, y) ==>
        GetJunctionClampDirection(i, j) == old(GetJunctionClampDirection(i, j))
    {
      degraded := degraded[(x, y) := direction];
    }
  }
}
