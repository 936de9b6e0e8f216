/** What scanning the grid for components produces: a specification of
    `Map.ExtractComponents`, which visits the cells column by column (every
    row of column 0, then of column 1, ...). */
module Extraction {
  import opened Wrappers
  import opened Tiles
  import opened Exprs
  import opened Components
  import opened Naming
  import opened Pixels

  /** The components found so far and the number of sources among them. */
  datatype ScanState = ScanState(components: seq<Component>, sources: nat)

  /** The effect of visiting cell (x, y) holding tile t (see `EmitShape`). */
  function Emit(st: ScanState, t: Tile, x: int, y: int): ScanState {
    match t
    case GateAnd => st.(components := st.components + [NewMultiInputGate(x, y, Conjunction)])
    case GateNot => st.(components := st.components + [NewSingleInputGate(x, y, Negation)])
    case GateOr => st.(components := st.components + [NewMultiInputGate(x, y, Disjunction)])
    case GateXor => st.(components := st.components + [NewMultiInputGate(x, y, ExclusiveOr)])
    case Lamp => st.(components := st.components + [NewDrain(x, y)])
    case Lever =>
      ScanState(st.components + [NewSource(x, y, Var(SourceName(st.sources + 1)))], st.sources + 1)
    case _ => st
  }

  /** Cell (i, j) comes before cell (x, y) in column-major order. */
  predicate Before(i: int, j: int, x: int, y: int) {
    i < x || (i == x && j < y)
  }

  predicate ScanPosition(frame: array2<Rgba>, x: nat, y: nat) {
    (y == 0 && x <= frame.Length0) || (x < frame.Length0 && y <= frame.Length1)
  }

  /** The state after visiting every cell before (x, y). */
  function ScanBefore(frame: array2<Rgba>, x: nat, y: nat): Result<ScanState>
    reads frame
    requires ScanPosition(frame, x, y)
    decreases x, y
  {
    if y == 0 then
      if x == 0 then Ok(ScanState([], 0)) else ScanBefore(frame, x - 1, frame.Length1)
    else
      var st :- ScanBefore(frame, x, y - 1);
      var t :- TileAt(frame, x, y - 1);
      Ok(Emit(st, t, x, y - 1))
  }

  /** The whole scan. */
  function Scan(frame: array2<Rgba>): Result<ScanState>
    reads frame
  {
    ScanBefore(frame, frame.Length0, 0)
  }

  /** c is what the scan creates for a cell holding t: a fresh component of
      the variant that t calls for, no input set, not processed. */
  predicate MadeFrom(c: Component, t: Tile) {
    !c.processed &&
    match t
    case GateAnd => c.kind == MultiInputGate(Conjunction, Option.None, Option.None)
    case GateNot => c.kind == SingleInputGate(Negation, Option.None)
    case GateOr => c.kind == MultiInputGate(Disjunction, Option.None, Option.None)
    case GateXor => c.kind == MultiInputGate(ExclusiveOr, Option.None, Option.None)
    case Lamp => c.kind == SingleInputGate(Identity, Option.None)
    case Lever => c.kind.Source?
    case _ => false
  }

  /** The values of the sources of a table, in table order. */
  function SourceValues(cs: seq<Component>): seq<Expr>
    decreases |cs|
  {
    if cs == [] then []
    else
      var n := |cs| - 1;
      SourceValues(cs[..n]) + (if cs[n].kind.Source? then [cs[n].kind.value] else [])
  }

  lemma SourceValuesAppend(cs: seq<Component>, c: Component)
    ensures SourceValues(cs + [c]) == SourceValues(cs) + (if c.kind.Source? then [c.kind.value] else [])
  {
    assert (cs + [c])[..|cs|] == cs;
  }

  /** The source names expected after n sources: S001, S002, ... */
  function Names(n: nat): seq<Expr> {
    seq(n, (j: int) requires 0 <= j => Var(SourceName(j + 1)))
  }

  predicate InFrame(frame: array2<Rgba>, i: int, j: int) {
    0 <= i < frame.Length0 && 0 <= j < frame.Length1
  }

  /** One step of the scan: the state before (x, y) is the state before
      (x, y - 1) followed by the visit of (x, y - 1). */
  lemma ScanStep(frame: array2<Rgba>, x: nat, y: nat)
    requires ScanPosition(frame, x, y) && y > 0 && ScanBefore(frame, x, y).Ok?
    ensures ScanPosition(frame, x, y - 1) && ScanBefore(frame, x, y - 1).Ok?
    ensures TileAt(frame, x, y - 1).Ok? && InFrame(frame, x, y - 1)
    ensures ScanBefore(frame, x, y) ==
              Ok(Emit(ScanBefore(frame, x, y - 1).value, TileAt(frame, x, y - 1).value, x, y - 1))
  {
  }

  /** Moving to the next column: the state before its first cell is the
      state after the whole previous column. */
  lemma ScanColumn(frame: array2<Rgba>, x: nat)
    requires 0 < x <= frame.Length0
    ensures ScanPosition(frame, x - 1, frame.Length1)
    ensures ScanBefore(frame, x, 0) == ScanBefore(frame, x - 1, frame.Length1)
  {
  }

  /** A visit appends exactly one component for a component cell, made from
      that cell's tile, and nothing for any other cell; only a lever counts
      as a source. */
  lemma EmitShape(st: ScanState, t: Tile, x: int, y: int)
    ensures var st' := Emit(st, t, x, y);
      if IsComponentTile(t) then
        |st'.components| == |st.components| + 1 &&
        st'.components == st.components + [st'.components[|st.components|]] &&
        st'.components[|st.components|].x == x && st'.components[|st.components|].y == y &&
        MadeFrom(st'.components[|st.components|], t) &&
        (t == Lever ==> st'.sources == st.sources + 1 &&
                        st'.components[|st.components|] == NewSource(x, y, Var(SourceName(st.sources + 1)))) &&
        (t != Lever ==> st'.sources == st.sources && !st'.components[|st.components|].kind.Source?)
      else st' == st
  {
  }

  /** Everything the scan found lies before (x, y), on a cell of the kind
      it stands for. */
  lemma {:induction false} ScanSound(frame: array2<Rgba>, x: nat, y: nat)
    requires ScanPosition(frame, x, y)
    requires ScanBefore(frame, x, y).Ok?
    ensures var cs := ScanBefore(frame, x, y).value.components;
      forall k :: 0 <= k < |cs| ==>
        InFrame(frame, cs[k].x, cs[k].y) && Before(cs[k].x, cs[k].y, x, y) &&
        TileAt(frame, cs[k].x, cs[k].y).Ok? && MadeFrom(cs[k], TileAt(frame, cs[k].x, cs[k].y).value)
    decreases x, y
  {
    if y == 0 {
      if x > 0 {
        ScanSound(frame, x - 1, frame.Length1);
      }
    } else {
      ScanStep(frame, x, y);
      ScanSound(frame, x, y - 1);
      EmitShape(ScanBefore(frame, x, y - 1).value, TileAt(frame, x, y - 1).value, x, y - 1);
    }
  }

  /** The components come in strictly increasing column-major order, so no
      two share a cell. */
  lemma {:induction false} ScanOrdered(frame: array2<Rgba>, x: nat, y: nat)
    requires ScanPosition(frame, x, y)
    requires ScanBefore(frame, x, y).Ok?
    ensures var cs := ScanBefore(frame, x, y).value.components;
      forall k, l :: 0 <= k < l < |cs| ==> Before(cs[k].x, cs[k].y, cs[l].x, cs[l].y)
    decreases x, y
  {
    if y == 0 {
      if x > 0 {
        ScanOrdered(frame, x - 1, frame.Length1);
      }
    } else {
      ScanStep(frame, x, y);
      ScanOrdered(frame, x, y - 1);
      ScanSound(frame, x, y - 1);
      EmitShape(ScanBefore(frame, x, y - 1).value, TileAt(frame, x, y - 1).value, x, y - 1);
    }
  }

  /** The sources are named S001, S002, ... in scan order, and the counter
      is the number of sources. */
  lemma {:induction false} ScanNames(frame: array2<Rgba>, x: nat, y: nat)
    requires ScanPosition(frame, x, y)
    requires ScanBefore(frame, x, y).Ok?
    ensures var st := ScanBefore(frame, x, y).value;
      SourceValues(st.components) == Names(st.sources)
    decreases x, y
  {
    if y == 0 {
      if x > 0 {
        ScanNames(frame, x - 1, frame.Length1);
      }
    } else {
      ScanStep(frame, x, y);
      ScanNames(frame, x, y - 1);
      var st := ScanBefore(frame, x, y - 1).value;
      var t := TileAt(frame, x, y - 1).value;
      var st' := Emit(st, t, x, y - 1);
      EmitShape(st, t, x, y - 1);
      if IsComponentTile(t) {
        SourceValuesAppend(st.components, st'.components[|st.components|]);
        if t == Lever {
          NamesSnoc(st.sources);
        }
      }
    }
  }

  lemma NamesSnoc(n: nat)
    ensures Names(n + 1) == Names(n) + [Var(SourceName(n + 1))]
  {
  }

  /** Some component of the table sits at cell (i, j). */
  predicate HasComponentAt(cs: seq<Component>, i: int, j: int) {
    exists k :: 0 <= k < |cs| && cs[k].x == i && cs[k].y == j
  }

  /** Visiting a component cell adds a component at that cell. */
  lemma ScanFindsVisited(frame: array2<Rgba>, x: nat, y: nat)
    requires ScanPosition(frame, x, y) && y > 0 && ScanBefore(frame, x, y).Ok?
    requires TileAt(frame, x, y - 1).Ok? && IsComponentTile(TileAt(frame, x, y - 1).value)
    ensures HasComponentAt(ScanBefore(frame, x, y).value.components, x, y - 1)
  {
    ScanStep(frame, x, y);
    var st := ScanBefore(frame, x, y - 1).value;
    EmitShape(st, TileAt(frame, x, y - 1).value, x, y - 1);
    var cs' := ScanBefore(frame, x, y).value.components;
    assert cs'[|st.components|].x == x && cs'[|st.components|].y == y - 1;
  }

  /** A component found before (x, y - 1) is still there before (x, y). */
  lemma ScanKeepsFound(frame: array2<Rgba>, x: nat, y: nat, i: int, j: int)
    requires ScanPosition(frame, x, y) && y > 0 && ScanBefore(frame, x, y).Ok?
    requires ScanPosition(frame, x, y - 1) && ScanBefore(frame, x, y - 1).Ok?
    requires HasComponentAt(ScanBefore(frame, x, y - 1).value.components, i, j)
    ensures HasComponentAt(ScanBefore(frame, x, y).value.components, i, j)
  {
    ScanStep(frame, x, y);
    var st := ScanBefore(frame, x, y - 1).value;
    EmitShape(st, TileAt(frame, x, y - 1).value, x, y - 1);
    var cs' := ScanBefore(frame, x, y).value.components;
    var k :| 0 <= k < |st.components| && st.components[k].x == i && st.components[k].y == j;
    assert cs'[k] == st.components[k];
  }

  /** Every component cell before (x, y) produced a component. */
  lemma {:induction false} ScanComplete(frame: array2<Rgba>, x: nat, y: nat, i: int, j: int)
    requires ScanPosition(frame, x, y)
    requires ScanBefore(frame, x, y).Ok?
    requires InFrame(frame, i, j) && Before(i, j, x, y)
    requires TileAt(frame, i, j).Ok? && IsComponentTile(TileAt(frame, i, j).value)
    ensures HasComponentAt(ScanBefore(frame, x, y).value.components, i, j)
    decreases x, y
  {
    if y == 0 {
      ScanColumn(frame, x);
      ScanComplete(frame, x - 1, frame.Length1, i, j);
    } else if i == x && j == y - 1 {
      ScanFindsVisited(frame, x, y);
    } else {
      ScanStep(frame, x, y);
      ScanComplete(frame, x, y - 1, i, j);
      ScanKeepsFound(frame, x, y, i, j);
    }
  }

  /** The scan fails exactly when a cell before (x, y) has a colour outside
      the table, and the failure is then an unknown colour. */
  lemma {:induction false} ScanFails(frame: array2<Rgba>, x: nat, y: nat)
    requires ScanPosition(frame, x, y)
    ensures ScanBefore(frame, x, y).Err? <==>
      exists i, j :: InFrame(frame, i, j) && Before(i, j, x, y) && TileAt(frame, i, j).Err?
    ensures ScanBefore(frame, x, y).Err? ==> ScanBefore(frame, x, y).error == UnknownColour
    decreases x, y
  {
    if y == 0 {
      if x > 0 {
        ScanFails(frame, x - 1, frame.Length1);
        if exists i, j :: InFrame(frame, i, j) && Before(i, j, x, 0) && TileAt(frame, i, j).Err? {
          var i, j :| InFrame(frame, i, j) && Before(i, j, x, 0) && TileAt(frame, i, j).Err?;
          assert Before(i, j, x - 1, frame.Length1);
        }
      }
    } else {
      ScanFails(frame, x, y - 1);
      if exists i, j :: InFrame(frame, i, j) && Before(i, j, x, y) && TileAt(frame, i, j).Err? {
        var i, j :| InFrame(frame, i, j) && Before(i, j, x, y) && TileAt(frame, i, j).Err?;
        if !(i == x && j == y - 1) {
          assert Before(i, j, x, y - 1);
        }
      }
    }
  }
}


