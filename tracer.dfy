/** Tracing a component's output along the wires: the walk ends at the gate
    (or lamp) it feeds, which takes the component as an input; every
    wire-like cell the walk passes through is clamped once the walk has
    propagated past it. */
module Tracer {
  import opened Wrappers
  import opened Tiles
  import opened Components
  import opened ComponentEvolution
  import opened Pixels
  import opened Lookup
  import opened CircuitMap
  import opened Oracles

  /** The gate a trace reaches takes the traced component as its input; a
      two-input gate takes it on the right when the trace arrives from its
      left (`right`), otherwise on the left. */
  function Attach(c: Component, comp: nat, right: bool): (d: Component)
    ensures c.kind.SingleInputGate? ==> d == SetInput(c, comp)
    ensures c.kind.MultiInputGate? && right ==> d == SetInputRight(c, comp)
    ensures c.kind.MultiInputGate? && !right ==> d == SetInputLeft(c, comp)
  {
    match c.kind
    case SingleInputGate(_, _) => SetInput(c, comp)
    case MultiInputGate(_, _, _) => if right then SetInputRight(c, comp) else SetInputLeft(c, comp)
    case Source(_) => c
  }

  lemma AttachRewires(cs: seq<Component>, k: nat, comp: nat, right: bool)
    requires k < |cs|
    ensures TableRewired(cs, cs[k := Attach(cs[k], comp, right)], comp)
  {
    match cs[k].kind
    case SingleInputGate(_, _) => SetInputRewires(cs, k, comp);
    case MultiInputGate(_, _, _) => SetInputSideRewires(cs, k, comp, right);
    case Source(_) => RewiredReflexive(cs, comp);
  }

  /** The two-input gates. */
  predicate TwoInputGate(t: Tile) {
    t == GateAnd || t == GateOr || t == GateXor
  }

  /** The map once the unique gate of type g at (x, y), if there is one,
      has taken `comp` as an input. */
  function AttachedState(s: MapState, g: GateType, x: int, y: int, right: bool, comp: nat): (r: MapState)
    ensures r.cells == s.cells && r.degraded == s.degraded && r.clampCount == s.clampCount
  {
    match GateAt(s.components, g, x, y)
    case Ok(k) => s.(components := s.components[k := Attach(s.components[k], comp, right)])
    case Err(_) => s
  }

  /** The outcome of reaching a gate of type g at (x, y): when the lookup
      finds exactly one, that gate takes `comp` as an input and the trace
      succeeds; otherwise the lookup fails and nothing changes. */
  predicate Attached(s0: MapState, s1: MapState, g: GateType, x: int, y: int, right: bool,
                     comp: nat, r: Result<bool>) {
    var k := GateAt(s0.components, g, x, y);
    (k.Err? ==> r == Err(NotUnique)) && (k.Ok? ==> r == Ok(true)) &&
    s1 == AttachedState(s0, g, x, y, right, comp)
  }

  /** A cell that ends a walk reaching it: an unreadable cell, or any tile
      that is not wire-like. */
  predicate EndsWalk(t: Result<Tile>) {
    t.Err? || !IsPassThrough(t.value)
  }

  /** The outcome of a walk reaching a cell, where the tile alone decides
      it: an unreadable cell fails with its read error, a clamp succeeds,
      an empty cell or a lever is unsupported. A gate or a lamp also needs
      the lookup, and a wire-like cell does not end the walk (None). */
  function TileVerdict(t: Result<Tile>): (r: Option<Result<bool>>)
    ensures r.Some? ==> EndsWalk(t)
  {
    if t.Err? then Some(Err(t.error))
    else if t.value == Clamp then Some(Ok(true))
    else if t.value == Tile.None || t.value == Lever then Some(Err(Unsupported))
    else Option.None
  }

  /** Whether a walk that reaches the cell (x, y), which ends it, succeeds:
      an unreadable cell fails with its read error, a clamp succeeds, a gate
      or lamp succeeds when the lookup finds exactly one, and an empty cell
      or a lever is unsupported. Such a walk never reports "not propagated". */
  function Lands(s: MapState, x: int, y: int): (r: Result<bool>)
    requires EndsWalk(TileIn(s.cells, x, y))
    ensures r != Ok(false)
    ensures TileIn(s.cells, x, y) == Ok(Clamp) ==> r == Ok(true)
    ensures TileIn(s.cells, x, y).Err? ==> r == Err(TileIn(s.cells, x, y).error)
    ensures TileVerdict(TileIn(s.cells, x, y)).Some? ==> r == TileVerdict(TileIn(s.cells, x, y)).value
    ensures r != Err(Stuck)
  {
    var t := TileIn(s.cells, x, y);
    if t.Err? then Err(t.error)
    else if t.value == Clamp then Ok(true)
    else if TwoInputGate(t.value) then
      if GateAt(s.components, MultiInput, x, y).Ok? then Ok(true) else Err(NotUnique)
    else if t.value == Lamp || t.value == GateNot then
      if GateAt(s.components, SingleInput, x, y).Ok? then Ok(true) else Err(NotUnique)
    else Err(Unsupported)
  }

  /** The map once a walk from column sourceX has reached the cell (x, y),
      which ends it: a gate or lamp there has taken `comp` as an input (a
      two-input gate on the right when reached from its left); nothing else
      changes. */
  function Landed(s: MapState, x: int, y: int, sourceX: int, comp: nat): (r: MapState)
    ensures r.cells == s.cells && r.degraded == s.degraded && r.clampCount == s.clampCount
    ensures EndsWalk(TileIn(s.cells, x, y)) && Lands(s, x, y).Err? ==> r == s
  {
    var t := TileIn(s.cells, x, y);
    if t.Ok? && TwoInputGate(t.value) then AttachedState(s, MultiInput, x, y, x > sourceX, comp)
    else if t.Ok? && (t.value == Lamp || t.value == GateNot) then AttachedState(s, SingleInput, x, y, false, comp)
    else s
  }

  /** Whether a walk succeeds at a cell that ends it does not change while
      the map evolves: that cell keeps its tile, and rewiring keeps the gate
      lookups. */
  lemma LandsStable(s0: MapState, s1: MapState, x: int, y: int)
    requires GridEvolves(s0.cells, s1.cells) && TableGrows(s0.components, s1.components)
    requires EndsWalk(TileIn(s0.cells, x, y))
    ensures TileIn(s1.cells, x, y) == TileIn(s0.cells, x, y)
    ensures Lands(s1, x, y) == Lands(s0, x, y)
  {
    FixedCellStays(s0.cells, s1.cells, x, y);
    var t := TileIn(s0.cells, x, y);
    if t.Ok? && TwoInputGate(t.value) {
      GateAtStable(s0.components, s1.components, MultiInput, x, y);
    } else if t.Ok? && (t.value == Lamp || t.value == GateNot) {
      GateAtStable(s0.components, s1.components, SingleInput, x, y);
    }
  }

  /** The cell (x, y) ends a walk, and a walk reaching it succeeds. */
  predicate SucceedsAt(s: MapState, x: int, y: int) {
    EndsWalk(TileIn(s.cells, x, y)) && Lands(s, x, y) == Ok(true)
  }

  /** A walk that succeeds at a cell that ends it keeps succeeding there
      while the map evolves. */
  lemma SucceedsStays(s0: MapState, s1: MapState, x: int, y: int)
    requires GridEvolves(s0.cells, s1.cells) && TableGrows(s0.components, s1.components)
    requires SucceedsAt(s0, x, y)
    ensures SucceedsAt(s1, x, y)
  {
    LandsStable(s0, s1, x, y);
  }

  /** Traces the output of component `comp` into cell (x, y), arriving from
      (sourceX, sourceY). The result says whether the wire propagated. A
      failing read, a failing lookup and an unsupported tile are errors;
      `fuel` bounds the depth of the walk, which the translator leaves
      unbounded. */
  method TraceComponent(m: Map, comp: nat, x: int, y: int, sourceX: int, sourceY: int, fuel: nat)
    returns (r: Result<bool>)
    requires m.Valid() && comp < |m.components|
    modifies m, m.frame
    ensures m.Valid() && Evolves(old(m.State()), m.State(), comp)
    ensures EndsWalk(old(TileAt(m.frame, x, y))) ==>
              r == Lands(old(m.State()), x, y) && m.State() == Landed(old(m.State()), x, y, sourceX, comp)
    ensures !EndsWalk(old(TileAt(m.frame, x, y))) && r == Ok(true) ==> Clamped(old(m.State()), m.State(), x, y)
    ensures !EndsWalk(old(TileAt(m.frame, x, y))) && old(TileAt(m.frame, x, y)) != Ok(WireJunctionT) ==>
              var o := StepOutcome(old(m.State()), old(NextCell(m, TileAt(m.frame, x, y).value, x, y, sourceX, sourceY)),
                                   x, fuel, comp);
              o.Some? ==> (r, m.State()) == Propagated(o.value, x, y)
    ensures old(TileAt(m.frame, x, y)) == Ok(WireJunctionT) &&
            old(ReadJunction(m, x, y)).Ok? && Stalls(old(ReadJunction(m, x, y)).value) ==>
              r == Ok(false) && m.State() == old(m.State())
    ensures r != Err(Stuck)
    decreases fuel, 8
  {
    var current := TileAt(m.frame, x, y);
    if EndsWalk(current) {
      r := Land(m, comp, x, y, sourceX);
    } else {
      r := PassThrough(m, comp, x, y, sourceX, sourceY, fuel);
    }
  }

  /** The walk reaches a cell that ends it: the outcome is `Lands`, the new
      map `Landed`. */
  method Land(m: Map, comp: nat, x: int, y: int, sourceX: int) returns (r: Result<bool>)
    requires m.Valid() && comp < |m.components|
    requires EndsWalk(TileAt(m.frame, x, y))
    modifies m
    ensures m.Valid() && Evolves(old(m.State()), m.State(), comp)
    ensures r == Lands(old(m.State()), x, y) && m.State() == Landed(old(m.State()), x, y, sourceX, comp)
    ensures r != Err(Stuck)
  {
    ghost var s0 := m.State();
    EvolvesReflexive(s0, comp);
    var current := TileAt(m.frame, x, y);
    assert TileIn(s0.cells, x, y) == current;
    if current.Err? {
      return Err(current.error);
    }
    var t := current.value;
    if t == Clamp {
      return Ok(true);
    } else if t == GateAnd || t == GateOr || t == GateXor {
      r := AttachInput(m, comp, MultiInput, x, y, x > sourceX);
    } else if t == Lamp || t == GateNot {
      r := AttachInput(m, comp, SingleInput, x, y, false);
    } else {
      return Err(Unsupported);
    }
  }

  /** The walk through a wire-like cell as the component trace needs it:
      when it propagated, the cell has been clamped. */
  method PassThrough(m: Map, comp: nat, x: int, y: int, sourceX: int, sourceY: int, fuel: nat)
    returns (r: Result<bool>)
    requires m.Valid() && comp < |m.components|
    requires TileAt(m.frame, x, y).Ok? && IsPassThrough(TileAt(m.frame, x, y).value)
    modifies m, m.frame
    ensures m.Valid() && Evolves(old(m.State()), m.State(), comp)
    ensures r == Ok(true) ==> Clamped(old(m.State()), m.State(), x, y)
    ensures old(TileAt(m.frame, x, y)) != Ok(WireJunctionT) ==>
              var o := StepOutcome(old(m.State()), old(NextCell(m, TileAt(m.frame, x, y).value, x, y, sourceX, sourceY)),
                                   x, fuel, comp);
              o.Some? ==> (r, m.State()) == Propagated(o.value, x, y)
    ensures old(TileAt(m.frame, x, y)) == Ok(WireJunctionT) &&
            old(ReadJunction(m, x, y)).Ok? && Stalls(old(ReadJunction(m, x, y)).value) ==>
              r == Ok(false) && m.State() == old(m.State())
    ensures r != Err(Stuck)
    decreases fuel, 7
  {
    r := TraceWire(m, comp, x, y, sourceX, sourceY, fuel);
  }

  /** A wire-like cell: the walk takes one step on (see `TraceStep`), and
      when it propagated the cell is clamped. Where the step ends the walk at
      once, in a cell that ends it, with no fuel left, or at a corner whose
      sides look alike, the contract gives the outcome and the whole new map. */
  method TraceWire(m: Map, comp: nat, x: int, y: int, sourceX: int, sourceY: int, fuel: nat)
    returns (r: Result<bool>)
    requires m.Valid() && comp < |m.components|
    requires TileAt(m.frame, x, y).Ok? && IsPassThrough(TileAt(m.frame, x, y).value)
    modifies m, m.frame
    ensures m.Valid() && Evolves(old(m.State()), m.State(), comp)
    ensures r == Ok(true) ==> Clamped(old(m.State()), m.State(), x, y)
    ensures old(TileAt(m.frame, x, y)) != Ok(WireJunctionT) ==>
              var o := StepOutcome(old(m.State()), old(NextCell(m, TileAt(m.frame, x, y).value, x, y, sourceX, sourceY)),
                                   x, fuel, comp);
              o.Some? ==> (r, m.State()) == Propagated(o.value, x, y)
    ensures old(TileAt(m.frame, x, y)) == Ok(WireJunctionT) &&
            old(ReadJunction(m, x, y)).Ok? && Stalls(old(ReadJunction(m, x, y)).value) ==>
              r == Ok(false) && m.State() == old(m.State())
    ensures r != Err(Stuck)
    decreases fuel, 6
  {
    ghost var s0 := m.State();
    EvolvesReflexive(s0, comp);
    var propagated :- TraceStep(m, comp, x, y, sourceX, sourceY, fuel);
    if propagated {
      ClampKeepsEvolving(s0, m.State(), x, y, comp);
      m.ClampDown(x, y);
    }
    return Ok(propagated);
  }

  /** The step out of a wire-like cell: a wire or crossover continues
      straight on, a corner entered from its row turns up, any other corner
      turns towards the more promising side (see `NextCell`), a T-junction
      traces its legs. */
  method TraceStep(m: Map, comp: nat, x: int, y: int, sourceX: int, sourceY: int, fuel: nat)
    returns (r: Result<bool>)
    requires m.Valid() && comp < |m.components|
    requires TileAt(m.frame, x, y).Ok? && IsPassThrough(TileAt(m.frame, x, y).value)
    modifies m, m.frame
    ensures m.Valid() && Evolves(old(m.State()), m.State(), comp)
    ensures old(TileAt(m.frame, x, y)) != Ok(WireJunctionT) ==>
              var o := StepOutcome(old(m.State()), old(NextCell(m, TileAt(m.frame, x, y).value, x, y, sourceX, sourceY)),
                                   x, fuel, comp);
              o.Some? ==> (r, m.State()) == o.value
    ensures old(TileAt(m.frame, x, y)) == Ok(WireJunctionT) &&
            old(ReadJunction(m, x, y)).Ok? && Stalls(old(ReadJunction(m, x, y)).value) ==>
              r == Ok(false) && m.State() == old(m.State())
    ensures r != Err(Stuck)
    decreases fuel, 5
  {
    var current := TileAt(m.frame, x, y).value;
    if current != WireJunctionT {
      var next := NextCell(m, current, x, y, sourceX, sourceY);
      r := Follow(m, comp, next, x, y, fuel);
    } else {
      ghost var legs;
      r, legs := TraceJunction(m, comp, x, y, fuel);
    }
  }

  /** The walk moves on from (x, y) to `next`: a read failure fails, no
      next cell means no propagation, no fuel left fails, and otherwise the
      walk goes on into the next cell. */
  method Follow(m: Map, comp: nat, next: Result<Option<(int, int)>>, x: int, y: int, fuel: nat)
    returns (r: Result<bool>)
    requires m.Valid() && comp < |m.components|
    modifies m, m.frame
    ensures m.Valid() && Evolves(old(m.State()), m.State(), comp)
    ensures next.Ok? && next.value.Some? && fuel == 0 ==> r == Err(Exhausted) && m.State() == old(m.State())
    ensures var o := StepOutcome(old(m.State()), next, x, fuel, comp);
            o.Some? ==> (r, m.State()) == o.value
    ensures next != Err(Stuck) ==> r != Err(Stuck)
    decreases fuel, 4
  {
    EvolvesReflexive(m.State(), comp);
    if next.Err? {
      return Err(next.error);
    }
    if next.value.None? {
      return Ok(false);
    }
    if fuel == 0 {
      return Err(Exhausted);
    }
    var (nx, ny) := next.value.value;
    r := TraceComponent(m, comp, nx, ny, x, y, fuel - 1);
  }

  /** The gate or lamp a walk ends at takes the traced component as an input
      (see `Attached`). */
  method AttachInput(m: Map, comp: nat, g: GateType, x: int, y: int, right: bool) returns (r: Result<bool>)
    requires m.Valid() && comp < |m.components|
    modifies m
    ensures m.Valid() && Evolves(old(m.State()), m.State(), comp)
    ensures Attached(old(m.State()), m.State(), g, x, y, right, comp, r)
    ensures r != Err(Stuck)
  {
    EvolvesReflexive(m.State(), comp);
    var target :- GateAt(m.components, g, x, y);
    ghost var before := m.components;
    AttachRewires(m.components, target, comp, right);
    m.components := m.components[target := Attach(m.components[target], comp, right)];
    RewiredKeepsWellFormed(before, m.components, comp);
    return Ok(true);
  }

  /** What a T-junction's decision rests on: the verdicts of its three
      legs and its recorded leg, read before any leg is traced. */
  datatype JunctionView = JunctionView(left: Option<bool>, right: Option<bool>, bottom: Option<bool>,
                                       recorded: ClampDirection)

  /** Reading the junction at (x, y): the cell to the right is entered from
      the side heading right, the cell to the left heading left, the cell
      above from below. A failing read fails. */
  function ReadJunction(m: Map, x: int, y: int): (r: Result<JunctionView>)
    reads m, m.frame
    ensures r.Ok? <==> CanEnterFromSide(m.frame, x + 1, y, 1).Ok? &&
                       CanEnterFromSide(m.frame, x - 1, y, -1).Ok? && CanEnterFromBottom(m.frame, x, y - 1).Ok?
    ensures r.Ok? ==> r.value == JunctionView(CanEnterFromSide(m.frame, x + 1, y, 1).value,
                                              CanEnterFromSide(m.frame, x - 1, y, -1).value,
                                              CanEnterFromBottom(m.frame, x, y - 1).value,
                                              m.GetJunctionClampDirection(x, y))
    ensures r != Err(Stuck)
  {
    var left :- CanEnterFromSide(m.frame, x + 1, y, 1);
    var right :- CanEnterFromSide(m.frame, x - 1, y, -1);
    var bottom :- CanEnterFromBottom(m.frame, x, y - 1);
    Ok(JunctionView(left, right, bottom, m.GetJunctionClampDirection(x, y)))
  }

  /** A junction whose verdicts do not resolve it. */
  predicate Stalls(v: JunctionView) {
    JunctionDefault(v.left, v.right, v.bottom, v.recorded).None?
  }

  /** Reading the corner at (x, y): the cell to its right is entered
      heading right, the cell to its left heading left, and the verdicts
      decide the column the walk turns to, if any. A failing read fails. */
  function CornerExit(m: Map, x: int, y: int): (r: Result<Option<int>>)
    reads m.frame
    ensures r.Ok? <==> CanEnterFromSide(m.frame, x + 1, y, 1).Ok? && CanEnterFromSide(m.frame, x - 1, y, -1).Ok?
    ensures r.Ok? ==> var turn := CornerTurn(CanEnterFromSide(m.frame, x + 1, y, 1).value,
                                             CanEnterFromSide(m.frame, x - 1, y, -1).value);
                      (turn.None? ==> r.value.None?) && (turn.Some? ==> r.value == Some(x + turn.value))
    ensures r != Err(Stuck)
  {
    var cornerLeft :- CanEnterFromSide(m.frame, x + 1, y, 1);
    var cornerRight :- CanEnterFromSide(m.frame, x - 1, y, -1);
    match CornerTurn(cornerLeft, cornerRight)
    case Some(d) => Ok(Some(x + d))
    case None => Ok(Option.None)
  }

  /** The cell a walk moves to from the corner (x, y): up when entered from
      its own row, otherwise the exit `CornerExit` picks, or none when the
      sides look alike. */
  function CornerNext(m: Map, x: int, y: int, sourceY: int): (r: Result<Option<(int, int)>>)
    reads m.frame
    ensures sourceY == y ==> r == Ok(Some((x, y - 1)))
    ensures sourceY != y ==> (r.Ok? <==> CornerExit(m, x, y).Ok?)
    ensures sourceY != y && r.Ok? ==>
              (r.value.None? <==> CornerExit(m, x, y).value.None?) &&
              (r.value.Some? ==> r.value.value == (CornerExit(m, x, y).value.value, y))
    ensures r != Err(Stuck)
  {
    if sourceY == y then Ok(Some((x, y - 1)))
    else
      var exit :- CornerExit(m, x, y);
      Ok(if exit.Some? then Some((exit.value, y)) else Option.None)
  }

  /** The cell a walk moves to from the wire-like cell (x, y) holding `t`,
      not a T-junction, entered from (sourceX, sourceY): a wire or crossover
      leads straight on, a corner as `CornerNext` says. */
  function NextCell(m: Map, t: Tile, x: int, y: int, sourceX: int, sourceY: int): (r: Result<Option<(int, int)>>)
    reads m.frame
    ensures (t == Wire || t == WireCrossover) ==> r == Ok(Some((2 * x - sourceX, 2 * y - sourceY)))
    ensures t == WireCorner ==> r == CornerNext(m, x, y, sourceY)
    ensures r != Err(Stuck)
  {
    if t == WireCorner then CornerNext(m, x, y, sourceY)
    else Ok(Some((2 * x - sourceX, 2 * y - sourceY)))
  }

  /** The outcome of one step from column x towards `next` in state s, and
      the map after it, when the step decides it: a read failure fails, no
      next cell means no propagation, no fuel left fails, and a next cell
      that ends the walk gives `Lands` and `Landed`; in each case the map
      changes only where a gate took the traced component. `None` when the
      walk goes on through another wire-like cell. */
  function StepOutcome(s: MapState, next: Result<Option<(int, int)>>, x: int, fuel: nat, comp: nat)
    : (o: Option<(Result<bool>, MapState)>)
    ensures o.Some? ==> o.value.1.cells == s.cells && o.value.1.clampCount == s.clampCount
    ensures o.Some? && o.value.0.Err? ==> o.value.1 == s
    ensures next.Err? ==> o == Some((Err(next.error), s))
    ensures next == Ok(Option.None) ==> o == Some((Ok(false), s))
    ensures next.Ok? && next.value.Some? && fuel == 0 ==> o == Some((Err(Exhausted), s))
    ensures next.Ok? && next.value.Some? && fuel > 0 ==>
              (o.Some? <==> EndsWalk(TileIn(s.cells, next.value.value.0, next.value.value.1)))
  {
    match next
    case Err(e) => Some((Err(e), s))
    case Ok(None) => Some((Ok(false), s))
    case Ok(Some(n)) =>
      if fuel == 0 then Some((Err(Exhausted), s))
      else if EndsWalk(TileIn(s.cells, n.0, n.1)) then
        Some((Lands(s, n.0, n.1), Landed(s, n.0, n.1, x, comp)))
      else Option.None
  }

  /** A step's outcome once the wire-like cell (x, y) it left is clamped
      when the walk propagated. */
  function Propagated(o: (Result<bool>, MapState), x: int, y: int): (Result<bool>, MapState) {
    if o.0 == Ok(true) then (Ok(true), ClampedState(o.1, x, y)) else o
  }

  /** A T-junction: reads the verdicts of its legs; when the counting rule
      of `JunctionDefault` resolves them, traces every leg not yet recorded whose
      verdict (or the default) allows it, records each leg that propagated,
      and propagates when enough legs did. `legs` are the legs that
      propagated. */
  method TraceJunction(m: Map, comp: nat, x: int, y: int, fuel: nat)
    returns (r: Result<bool>, ghost legs: set<ClampDirection>)
    requires m.Valid() && comp < |m.components|
    requires TileAt(m.frame, x, y) == Ok(WireJunctionT)
    modifies m, m.frame
    ensures m.Valid() && Evolves(old(m.State()), m.State(), comp)
    ensures old(ReadJunction(m, x, y)).Err? ==>
              r == Err(old(ReadJunction(m, x, y)).error) && m.State() == old(m.State())
    ensures old(ReadJunction(m, x, y)).Ok? && Stalls(old(ReadJunction(m, x, y)).value) ==>
              r == Ok(false) && m.State() == old(m.State()) && legs == {}
    ensures var v := old(ReadJunction(m, x, y));
            v.Ok? && !Stalls(v.value) ==>
              var dv := JunctionDefault(v.value.left, v.value.right, v.value.bottom, v.value.recorded).value;
              r.Ok? ==>
                (forall l :: l in legs ==> Enters(v.value.left, v.value.right, v.value.bottom, dv, v.value.recorded, l)) &&
                |legs| <= Entered(v.value.left, v.value.right, v.value.bottom, dv, v.value.recorded) &&
                (r.value <==> |legs| >= Expected(v.value.recorded))
    ensures var v := old(ReadJunction(m, x, y));
            v.Ok? && !Stalls(v.value) ==>
              var dv := JunctionDefault(v.value.left, v.value.right, v.value.bottom, v.value.recorded).value;
              LegRule(Landing(old(m.State()), x, y - 1),
                      Enters(v.value.left, v.value.right, v.value.bottom, dv, v.value.recorded, Up), Up, fuel, r, legs) &&
              LegRule(Landing(old(m.State()), x + 1, y),
                      Enters(v.value.left, v.value.right, v.value.bottom, dv, v.value.recorded, Right), Right, fuel, r, legs) &&
              LegRule(Landing(old(m.State()), x - 1, y),
                      Enters(v.value.left, v.value.right, v.value.bottom, dv, v.value.recorded, Left), Left, fuel, r, legs)
    ensures r.Ok? ==> LegsHeld(old(m.State()), m.State(), x, y, legs)
    ensures r != Err(Stuck)
    decreases fuel, 4
  {
    EvolvesReflexive(m.State(), comp);
    legs := {};
    var view :- ReadJunction(m, x, y);
    var resolution := JunctionDefault(view.left, view.right, view.bottom, view.recorded);
    if resolution.None? {
      return Ok(false), {};
    }
    ghost var s0 := m.State();
    assert TileIn(s0.cells, x, y) == Ok(WireJunctionT);
    r, legs := TraceLegs(m, comp, x, y, view, resolution.value, s0, fuel);
  }

  /** The legs named by three flags: up, right, left. */
  function LegSet(up: bool, right: bool, left: bool): (r: set<ClampDirection>)
    ensures forall l :: l in r <==> (l == Up && up) || (l == Right && right) || (l == Left && left)
    ensures |r| == (if up then 1 else 0) + (if right then 1 else 0) + (if left then 1 else 0)
  {
    var a: set<ClampDirection> := if up then {Up} else {};
    var b: set<ClampDirection> := if right then {Right} else {};
    var c: set<ClampDirection> := if left then {Left} else {};
    assert |a + b| == |a| + |b| by { assert a !! b; }
    assert |a + b + c| == |a + b| + |c| by { assert (a + b) !! c; }
    a + b + c
  }

  /** The number of flagged legs. */
  function LegCount(up: bool, right: bool, left: bool): nat {
    (if up then 1 else 0) + (if right then 1 else 0) + (if left then 1 else 0)
  }

  /** The flagged legs are all legs the visit of `view` enters. */
  predicate LegsAllowed(view: JunctionView, dv: bool, up: bool, right: bool, left: bool) {
    (up ==> Enters(view.left, view.right, view.bottom, dv, view.recorded, Up)) &&
    (right ==> Enters(view.left, view.right, view.bottom, dv, view.recorded, Right)) &&
    (left ==> Enters(view.left, view.right, view.bottom, dv, view.recorded, Left))
  }

  /** The legs that propagated, counted, and the verdict of the junction. */
  lemma LegsBounded(view: JunctionView, dv: bool, up: bool, right: bool, left: bool, count: nat, expected: nat)
    requires LegsAllowed(view, dv, up, right, left)
    requires count == (if up then 1 else 0) + (if right then 1 else 0) + (if left then 1 else 0)
    requires expected == if view.recorded != ClampDirection.None then 1 else 2
    ensures forall l :: l in LegSet(up, right, left) ==> Enters(view.left, view.right, view.bottom, dv, view.recorded, l)
    ensures |LegSet(up, right, left)| <= Entered(view.left, view.right, view.bottom, dv, view.recorded)
    ensures count >= expected <==> |LegSet(up, right, left)| >= Expected(view.recorded)
  {
  }

  /** What a walk reaching (x, y) in s decides there at once: the outcome
      of landing in a cell that ends the walk (`Lands`), or None for a
      wire-like cell, where the walk goes on. */
  function Landing(s: MapState, x: int, y: int): (o: Option<Result<bool>>)
    ensures o.Some? <==> EndsWalk(TileIn(s.cells, x, y))
    ensures TileVerdict(TileIn(s.cells, x, y)).Some? ==> o == TileVerdict(TileIn(s.cells, x, y))
    ensures o != Some(Ok(false))
  {
    if EndsWalk(TileIn(s.cells, x, y)) then Some(Lands(s, x, y)) else Option.None
  }

  /** What one leg trace decides by the outcome `land` of landing in the
      cell it leads to, as the map stood before the junction visit (see
      `Landing`): a leg not entered does not propagate, an entered leg
      without fuel is exhausted, and an entered leg into a cell that ends
      the walk has the outcome of landing there. */
  predicate LegTraced(land: Option<Result<bool>>, enter: bool, fuel: nat, r: Result<bool>) {
    (!enter ==> r == Ok(false)) &&
    (enter && fuel == 0 ==> r == Err(Exhausted)) &&
    (enter && fuel > 0 && land.Some? ==> r == land.value)
  }

  /** The rule for leg l (entered or not, `enter`) of a junction visit
      whose leg cell, before the visit, had landing outcome `land`: an
      entered leg without fuel, or into a cell where landing fails (an
      unreadable cell, an empty cell, a lever, a gate or lamp the lookup
      does not find exactly once), fails the visit; when the visit succeeds,
      an entered leg into a cell where landing succeeds (a clamp, a gate or
      a lamp found once) is among the legs that propagated. */
  predicate LegRule(land: Option<Result<bool>>, enter: bool, l: ClampDirection, fuel: nat, r: Result<bool>,
                    legs: set<ClampDirection>) {
    (enter && fuel == 0 ==> r.Err?) &&
    (enter && fuel > 0 && land.Some? && land.value.Err? ==> r.Err?) &&
    (r.Ok? && enter && fuel > 0 && land == Some(Ok(true)) ==> l in legs)
  }

  /** The cell (x, y) of g, which held `t`, has been clamped: it is a clamp
      now, or a plain wire where it was a crossover. */
  predicate CellClamped(t: Result<Tile>, g: map<(int, int), Rgba>, x: int, y: int) {
    TileIn(g, x, y) == Ok(Clamp) || (t == Ok(WireCrossover) && TileIn(g, x, y) == Ok(Wire))
  }

  /** A leg into (x, y) propagated, judged against the state s0 the visit
      started from and the state s1 reached since: where the cell was
      wire-like in s0, it has been clamped. (Where it ended the walk,
      `LegTraced` and `Lands` give the outcome.) */
  predicate LegHeld(s0: MapState, s1: MapState, x: int, y: int) {
    var t := TileIn(s0.cells, x, y);
    !EndsWalk(t) ==> CellClamped(t, s1.cells, x, y)
  }

  /** Every leg of the junction at (x, y) among `legs` propagated, from s0
      to s1, in the sense of `LegHeld`. */
  predicate LegsHeld(s0: MapState, s1: MapState, x: int, y: int, legs: set<ClampDirection>) {
    (Up in legs ==> LegHeld(s0, s1, x, y - 1)) &&
    (Right in legs ==> LegHeld(s0, s1, x + 1, y)) &&
    (Left in legs ==> LegHeld(s0, s1, x - 1, y))
  }

  /** A leg that propagated stays so while the grid evolves: a clamp never
      changes, and a wire left of a crossover can only become a clamp. */
  lemma LegHeldStays(s0: MapState, s1: MapState, s2: MapState, x: int, y: int)
    requires LegHeld(s0, s1, x, y) && GridEvolves(s1.cells, s2.cells)
    ensures LegHeld(s0, s2, x, y)
  {
    if !EndsWalk(TileIn(s0.cells, x, y)) {
      ClampColoursDecode();
      assert CellEvolves(s1.cells[(x, y)], s2.cells[(x, y)]);
    }
  }

  /** A leg into a cell that was wire-like in s0 and whose walk from the
      later state s1 propagated: either the cell was still wire-like and
      that walk clamped it, or it had been clamped already and the walk
      landed there without changing the grid. */
  lemma LegClamped(s0: MapState, s1: MapState, s2: MapState, x: int, y: int, comp: nat)
    requires Evolves(s0, s1, comp) && !EndsWalk(TileIn(s0.cells, x, y))
    requires !EndsWalk(TileIn(s1.cells, x, y)) ==> Clamped(s1, s2, x, y)
    requires EndsWalk(TileIn(s1.cells, x, y)) ==> s2.cells == s1.cells
    ensures LegHeld(s0, s2, x, y)
  {
    EvolvesKeepsWire(s0, s1, x, y, comp);
    ClampColoursDecode();
    assert CellEvolves(s0.cells[(x, y)], s1.cells[(x, y)]);
  }

  /** The three legs of a junction visit all returned Ok (`ru`, `rr`,
      `rl`): the legs that propagated and the verdict of the visit keep the
      junction's rules. */
  lemma LegsSettled(view: JunctionView, dv: bool, fuel: nat, lUp: Option<Result<bool>>,
                    lRight: Option<Result<bool>>, lLeft: Option<Result<bool>>, enterUp: bool, enterRight: bool, enterLeft: bool,
                    up: bool, right: bool, left: bool, r: Result<bool>)
    requires enterUp == Enters(view.left, view.right, view.bottom, dv, view.recorded, Up)
    requires enterRight == Enters(view.left, view.right, view.bottom, dv, view.recorded, Right)
    requires enterLeft == Enters(view.left, view.right, view.bottom, dv, view.recorded, Left)
    requires LegTraced(lUp, enterUp, fuel, Ok(up))
    requires LegTraced(lRight, enterRight, fuel, Ok(right))
    requires LegTraced(lLeft, enterLeft, fuel, Ok(left))
    requires r == Ok(LegCount(up, right, left) >= Expected(view.recorded))
    ensures forall l :: l in LegSet(up, right, left) ==>
              Enters(view.left, view.right, view.bottom, dv, view.recorded, l)
    ensures |LegSet(up, right, left)| <= Entered(view.left, view.right, view.bottom, dv, view.recorded)
    ensures r.value <==> |LegSet(up, right, left)| >= Expected(view.recorded)
    ensures LegRule(lUp, Enters(view.left, view.right, view.bottom, dv, view.recorded, Up), Up, fuel, r,
                    LegSet(up, right, left))
    ensures LegRule(lRight, Enters(view.left, view.right, view.bottom, dv, view.recorded, Right), Right, fuel, r,
                    LegSet(up, right, left))
    ensures LegRule(lLeft, Enters(view.left, view.right, view.bottom, dv, view.recorded, Left), Left, fuel, r,
                    LegSet(up, right, left))
  {
    LegsBounded(view, dv, up, right, left, LegCount(up, right, left),
                if view.recorded != ClampDirection.None then 1 else 2);
  }

  /** The legs of a resolved junction at (x, y), with the verdicts, the
      recorded leg and the default read before any leg was traced. Every leg
      that propagated (`legs`) was one the visit enters, the junction
      propagates exactly when at least as many legs propagated as the
      bookkeeping expects, and each leg keeps `LegRule`. */
  method TraceLegs(m: Map, comp: nat, x: int, y: int, view: JunctionView, defaultValue: bool,
                   ghost s0: MapState, fuel: nat)
    returns (r: Result<bool>, ghost legs: set<ClampDirection>)
    requires m.Valid() && comp < |m.components|
    requires s0 == m.State() && TileIn(s0.cells, x, y) == Ok(WireJunctionT)
    modifies m, m.frame
    ensures m.Valid() && Evolves(s0, m.State(), comp)
    ensures r.Ok? ==> forall l :: l in legs ==> Enters(view.left, view.right, view.bottom, defaultValue, view.recorded, l)
    ensures r.Ok? ==> |legs| <= Entered(view.left, view.right, view.bottom, defaultValue, view.recorded)
    ensures r.Ok? ==> (r.value <==> |legs| >= Expected(view.recorded))
    ensures LegRule(Landing(s0, x, y - 1), Enters(view.left, view.right, view.bottom, defaultValue, view.recorded, Up),
                    Up, fuel, r, legs)
    ensures LegRule(Landing(s0, x + 1, y), Enters(view.left, view.right, view.bottom, defaultValue, view.recorded, Right),
                    Right, fuel, r, legs)
    ensures LegRule(Landing(s0, x - 1, y), Enters(view.left, view.right, view.bottom, defaultValue, view.recorded, Left),
                    Left, fuel, r, legs)
    ensures r.Ok? ==> LegsHeld(s0, m.State(), x, y, legs)
    ensures r != Err(Stuck)
    decreases fuel, 3
  {
    EvolvesReflexive(s0, comp);
    legs := {};
    var junctionLeft, junctionRight, junctionBottom := view.left, view.right, view.bottom;
    var clampDirection := view.recorded;
    var enterUp := Enters(junctionLeft, junctionRight, junctionBottom, defaultValue, clampDirection, Up);
    var enterRight := Enters(junctionLeft, junctionRight, junctionBottom, defaultValue, clampDirection, Right);
    var enterLeft := Enters(junctionLeft, junctionRight, junctionBottom, defaultValue, clampDirection, Left);
    var traced :- TraceEachLeg(m, comp, x, y, enterUp, enterRight, enterLeft, s0, fuel);
    var (up, right, left) := traced;
    var propagationCount := (if up then 1 else 0) + (if right then 1 else 0) + (if left then 1 else 0);
    var expectedCount := if clampDirection != ClampDirection.None then 1 else 2;
    legs := LegSet(up, right, left);
    r := Ok(propagationCount >= expectedCount);
    LegsSettled(view, defaultValue, fuel, Landing(s0, x, y - 1), Landing(s0, x + 1, y), Landing(s0, x - 1, y),
                enterUp, enterRight, enterLeft, up, right, left, r);
  }

  /** The up leg, the right leg and the left leg of the junction at (x, y),
      in that order; a failing leg ends the visit before the later legs.
      On success the result holds whether each leg propagated. */
  method TraceEachLeg(m: Map, comp: nat, x: int, y: int, enterUp: bool, enterRight: bool, enterLeft: bool,
                      ghost s0: MapState, fuel: nat) returns (r: Result<(bool, bool, bool)>)
    requires m.Valid() && comp < |m.components|
    requires TileIn(s0.cells, x, y) == Ok(WireJunctionT) && Evolves(s0, m.State(), comp)
    modifies m, m.frame
    ensures m.Valid() && Evolves(s0, m.State(), comp)
    ensures r.Ok? ==> LegTraced(Landing(s0, x, y - 1), enterUp, fuel, Ok(r.value.0))
    ensures r.Ok? ==> LegTraced(Landing(s0, x + 1, y), enterRight, fuel, Ok(r.value.1))
    ensures r.Ok? ==> LegTraced(Landing(s0, x - 1, y), enterLeft, fuel, Ok(r.value.2))
    ensures r.Ok? && r.value.0 ==> LegHeld(s0, m.State(), x, y - 1)
    ensures r.Ok? && r.value.1 ==> LegHeld(s0, m.State(), x + 1, y)
    ensures r.Ok? && r.value.2 ==> LegHeld(s0, m.State(), x - 1, y)
    ensures r != Err(Stuck)
    decreases fuel, 2
  {
    ghost var s1 := m.State();
    var up := TraceLeg(m, comp, x, y, x, y - 1, Up, enterUp, s0, TileIn(s0.cells, x, y - 1), s1, fuel);
    if up.Err? {
      return Err(up.error);
    }
    ghost var s2 := m.State();
    var right := TraceLeg(m, comp, x, y, x + 1, y, Right, enterRight, s0, TileIn(s0.cells, x + 1, y), s2, fuel);
    if right.Err? {
      return Err(right.error);
    }
    ghost var s3 := m.State();
    var left := TraceLeg(m, comp, x, y, x - 1, y, Left, enterLeft, s0, TileIn(s0.cells, x - 1, y), s3, fuel);
    if left.Err? {
      return Err(left.error);
    }
    LegsHeldStay(s0, s2, s3, m.State(), x, y, up.value, right.value);
    return Ok((up.value, right.value, left.value));
  }

  /** The legs up and right that propagated by s1 and s2 stay so through
      the later legs, to s3. */
  lemma LegsHeldStay(s0: MapState, s1: MapState, s2: MapState, s3: MapState, x: int, y: int, up: bool, right: bool)
    requires up ==> LegHeld(s0, s1, x, y - 1)
    requires right ==> LegHeld(s0, s2, x + 1, y)
    requires GridEvolves(s1.cells, s2.cells) && GridEvolves(s2.cells, s3.cells)
    ensures up ==> LegHeld(s0, s3, x, y - 1)
    ensures right ==> LegHeld(s0, s3, x + 1, y)
  {
    if up {
      LegHeldStays(s0, s1, s2, x, y - 1);
      LegHeldStays(s0, s2, s3, x, y - 1);
    }
    if right {
      LegHeldStays(s0, s2, s3, x + 1, y);
    }
  }

  /** One leg of a junction at (x, y): when the visit enters it (`enter`),
      traces into (nx, ny) and, when that propagated, records the leg
      `direction`; a leg not entered does not propagate. `s0` is the state
      the whole junction trace started from, and `t` the tile of (nx, ny)
      in it. Against s0, an entered leg into a cell that ends the walk has
      the outcome of landing there, and a leg into a wire-like cell that
      propagated has clamped that cell. `sIn` is the state the leg starts
      from. */
  method TraceLeg(m: Map, comp: nat, x: int, y: int, nx: int, ny: int, direction: ClampDirection,
                  enter: bool, ghost s0: MapState, ghost t: Result<Tile>, ghost sIn: MapState, fuel: nat)
    returns (r: Result<bool>)
    requires m.Valid() && comp < |m.components|
    requires TileIn(s0.cells, x, y) == Ok(WireJunctionT) && Evolves(s0, m.State(), comp)
    requires t == TileIn(s0.cells, nx, ny) && sIn == m.State()
    modifies m, m.frame
    ensures m.Valid() && Evolves(s0, m.State(), comp)
    ensures !enter ==> r == Ok(false) && unchanged(m, m.frame)
    ensures enter && fuel == 0 ==> r == Err(Exhausted) && unchanged(m, m.frame)
    ensures r == Ok(true) ==> enter && m.GetJunctionClampDirection(x, y) == direction
    ensures LegTraced(Landing(s0, nx, ny), enter, fuel, r)
    ensures enter && fuel > 0 && EndsWalk(t) ==> r == Lands(s0, nx, ny)
    ensures r == Ok(true) ==> LegHeld(s0, m.State(), nx, ny)
    ensures GridEvolves(sIn.cells, m.State().cells)
    ensures r != Err(Stuck)
    decreases fuel, 0
  {
    if !enter {
      return Ok(false);
    }
    if fuel == 0 {
      return Err(Exhausted);
    }
    ghost var before := m.State();
    if EndsWalk(t) {
      FixedCellStays(s0.cells, before.cells, nx, ny);
    }
    assert TileAt(m.frame, nx, ny) == TileIn(before.cells, nx, ny);
    r := TraceComponent(m, comp, nx, ny, x, y, fuel - 1);
    EvolvesTransitive(s0, before, m.State(), comp);
    if TileVerdict(t).Some? {
      assert r == Lands(before, nx, ny);
    }
    if EndsWalk(t) {
      LandsStable(s0, before, nx, ny);
    } else if r == Ok(true) {
      LegClamped(s0, before, m.State(), nx, ny, comp);
    }
    if r == Ok(true) {
      DegradeKeepsEvolving(s0, m.State(), x, y, direction, comp);
      m.DegradeJunction(x, y, direction);
    }
  }
}
