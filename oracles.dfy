/** The translator's look-ahead: whether a trace can continue into a cell
    from the side or from below (true, false or unknown), and the two
    decisions built on those verdicts, for a corner and for a T-junction. */
module Oracles {
  import opened Wrappers
  import opened Tiles
  import opened Pixels
  import opened CircuitMap

  /** Empty cells, clamps and levers carry no wire onward. */
  predicate IsIrrelevant(t: Tile) {
    t == Tile.None || t == Clamp || t == Lever
  }

  /** Reading a cell and asking whether it is irrelevant; reading a cell
      outside the frame or of an unknown colour fails. */
  function Irrelevant(frame: array2<Rgba>, x: int, y: int): (r: Result<bool>)
    reads frame
    ensures r.Ok? <==> TileAt(frame, x, y).Ok?
    ensures r.Ok? ==> r.value == IsIrrelevant(TileAt(frame, x, y).value)
    ensures r.Err? ==> r.error == TileAt(frame, x, y).error
  {
    var t :- TileAt(frame, x, y);
    Ok(IsIrrelevant(t))
  }

  /** The cell (x, y) holds a tile and that tile is irrelevant. */
  ghost predicate IrrelevantAt(frame: array2<Rgba>, x: int, y: int)
    reads frame
  {
    TileAt(frame, x, y).Ok? && IsIrrelevant(TileAt(frame, x, y).value)
  }

  /** Can a trace arriving from the side enter (x, y); `direction` is the way
      it is heading (+1 or -1)? `Option.None` is the unknown verdict. Only the
      neighbours the translator reads are read, in its order, so a read that
      fails surfaces as that read's error. */
  function CanEnterFromSide(frame: array2<Rgba>, x: int, y: int, direction: int): (r: Result<Option<bool>>)
    reads frame
    ensures TileAt(frame, x, y).Err? ==> r == Err(TileAt(frame, x, y).error)
    ensures r == Err(Unsupported) <==> TileAt(frame, x, y) == Ok(Lever)
    ensures r.Err? ==> r == Err(Unsupported) || TileAt(frame, x, y).Err? || TileAt(frame, x, y + 1).Err? ||
                       TileAt(frame, x, y - 1).Err? || TileAt(frame, x + direction, y).Err?
    // for a wire-like cell, the verdict fails exactly when a read along the
    // translator's short-circuit order fails
    ensures TileAt(frame, x, y) == Ok(WireJunctionT) ==> (r.Ok? <==> TileAt(frame, x, y + 1).Ok?)
    ensures TileAt(frame, x, y) == Ok(Wire) ==>
              (r.Ok? <==>
                 TileAt(frame, x, y + 1).Ok? &&
                 (IrrelevantAt(frame, x, y + 1) ||
                  (TileAt(frame, x, y - 1).Ok? &&
                   (IrrelevantAt(frame, x, y - 1) || !(0 <= x + direction < frame.Length0) ||
                    TileAt(frame, x + direction, y).Ok?))))
    ensures TileAt(frame, x, y) == Ok(WireCorner) ==> (r.Ok? <==> TileAt(frame, x + direction, y).Ok?)
    ensures r.Ok? && TileAt(frame, x, y) == Ok(WireJunctionT) ==>
              r.value != Some(false) && (r.value == Some(true) <==> IrrelevantAt(frame, x, y + 1))
    ensures r.Ok? && TileAt(frame, x, y) == Ok(WireCorner) ==>
              r.value != Some(false) && (r.value == Some(true) <==> IrrelevantAt(frame, x + direction, y))
    ensures r.Ok? && TileAt(frame, x, y) == Ok(Wire) ==>
              (r.value == Some(true) <==> IrrelevantAt(frame, x, y + 1) || IrrelevantAt(frame, x, y - 1))
    ensures r.Ok? && TileAt(frame, x, y) == Ok(Wire) ==>
              (r.value == Some(false) <==>
                 !IrrelevantAt(frame, x, y + 1) && !IrrelevantAt(frame, x, y - 1) &&
                 (!(0 <= x + direction < frame.Length0) || IrrelevantAt(frame, x + direction, y)))
    ensures TileAt(frame, x, y) == Ok(WireCrossover) ==> r == Ok(Some(true))
    ensures TileAt(frame, x, y).Ok? && !IsPassThrough(TileAt(frame, x, y).value) &&
            TileAt(frame, x, y) != Ok(Lever) ==>
              r == Ok(Some(TileAt(frame, x, y).value in {GateAnd, GateOr, GateXor}))
    ensures r != Err(Stuck)
  {
    var t :- TileAt(frame, x, y);
    match t
    case WireJunctionT =>
      var below :- Irrelevant(frame, x, y + 1);
      Ok(if below then Some(true) else Option.None)
    case Wire =>
      var below :- Irrelevant(frame, x, y + 1);
      if below then Ok(Some(true))
      else
        var above :- Irrelevant(frame, x, y - 1);
        if above then Ok(Some(true))
        else
          var i := x + direction;
          if !(i < frame.Length0 && i >= 0) then Ok(Some(false))
          else
            var current :- TileAt(frame, i, y);
            // the translator's second test (not a wire or not a crossover)
            // holds for every tile, so the scan never reaches a second cell
            if IsIrrelevant(current) then Ok(Some(false)) else Ok(Option.None)
    case WireCorner =>
      var ahead :- Irrelevant(frame, x + direction, y);
      Ok(if ahead then Some(true) else Option.None)
    case WireCrossover => Ok(Some(true))
    case GateAnd => Ok(Some(true))
    case GateOr => Ok(Some(true))
    case GateXor => Ok(Some(true))
    case Lamp => Ok(Some(false))
    case GateNot => Ok(Some(false))
    case None => Ok(Some(false))
    case Clamp => Ok(Some(false))
    case Lever => Err(Unsupported)
  }

  /** Can a trace arriving from below (from y + 1) enter (x, y)? */
  function CanEnterFromBottom(frame: array2<Rgba>, x: int, y: int): (r: Result<Option<bool>>)
    reads frame
    ensures TileAt(frame, x, y).Err? ==> r == Err(TileAt(frame, x, y).error)
    ensures r == Err(Unsupported) <==> TileAt(frame, x, y) == Ok(Lever)
    ensures r.Err? ==> r == Err(Unsupported) || TileAt(frame, x, y).Err? || TileAt(frame, x, y - 1).Err? ||
                       TileAt(frame, x - 1, y).Err? || TileAt(frame, x + 1, y).Err?
    // the same read order: above, left, right for a junction; left, right,
    // above for a wire
    ensures TileAt(frame, x, y) == Ok(WireJunctionT) ==>
              (r.Ok? <==>
                 TileAt(frame, x, y - 1).Ok? &&
                 (IrrelevantAt(frame, x, y - 1) ||
                  (TileAt(frame, x - 1, y).Ok? &&
                   (IrrelevantAt(frame, x - 1, y) || TileAt(frame, x + 1, y).Ok?))))
    ensures TileAt(frame, x, y) == Ok(Wire) ==>
              (r.Ok? <==>
                 TileAt(frame, x - 1, y).Ok? &&
                 (IrrelevantAt(frame, x - 1, y) ||
                  (TileAt(frame, x + 1, y).Ok? &&
                   (IrrelevantAt(frame, x + 1, y) || !(0 <= y - 1) || TileAt(frame, x, y - 1).Ok?))))
    ensures TileAt(frame, x, y) == Ok(WireCorner) ==> (r.Ok? <==> TileAt(frame, x, y - 1).Ok?)
    ensures r.Ok? && TileAt(frame, x, y) == Ok(WireJunctionT) ==>
              r.value != Some(false) &&
              (r.value == Some(true) <==>
                 IrrelevantAt(frame, x, y - 1) || IrrelevantAt(frame, x - 1, y) || IrrelevantAt(frame, x + 1, y))
    ensures r.Ok? && TileAt(frame, x, y) == Ok(WireCorner) ==>
              r.value != Some(false) && (r.value == Some(true) <==> IrrelevantAt(frame, x, y - 1))
    ensures r.Ok? && TileAt(frame, x, y) == Ok(Wire) ==>
              (r.value == Some(true) <==> IrrelevantAt(frame, x - 1, y) || IrrelevantAt(frame, x + 1, y))
    ensures r.Ok? && TileAt(frame, x, y) == Ok(Wire) ==>
              (r.value == Some(false) <==>
                 !IrrelevantAt(frame, x - 1, y) && !IrrelevantAt(frame, x + 1, y) &&
                 0 <= y - 1 && IrrelevantAt(frame, x, y - 1))
    ensures TileAt(frame, x, y) == Ok(WireCrossover) ==> r == Ok(Some(true))
    ensures TileAt(frame, x, y).Ok? && !IsPassThrough(TileAt(frame, x, y).value) &&
            TileAt(frame, x, y) != Ok(Lever) ==>
              r == Ok(Some(TileAt(frame, x, y).value in {Lamp, GateNot}))
    ensures r != Err(Stuck)
  {
    var t :- TileAt(frame, x, y);
    match t
    case WireJunctionT =>
      var above :- Irrelevant(frame, x, y - 1);
      if above then Ok(Some(true))
      else
        var left :- Irrelevant(frame, x - 1, y);
        if left then Ok(Some(true))
        else
          var right :- Irrelevant(frame, x + 1, y);
          Ok(if right then Some(true) else Option.None)
    case Wire =>
      var left :- Irrelevant(frame, x - 1, y);
      if left then Ok(Some(true))
      else
        var right :- Irrelevant(frame, x + 1, y);
        if right then Ok(Some(true))
        else
          var i := y - 1;
          if !(i >= 0) then Ok(Option.None)
          else
            var current :- TileAt(frame, x, i);
            // the translator's second test (not a wire or not a crossover)
            // holds for every tile, so the scan never reaches a second cell
            if IsIrrelevant(current) then Ok(Some(false)) else Ok(Option.None)
    case WireCorner =>
      var above :- Irrelevant(frame, x, y - 1);
      Ok(if above then Some(true) else Option.None)
    case WireCrossover => Ok(Some(true))
    case Lamp => Ok(Some(true))
    case GateNot => Ok(Some(true))
    case None => Ok(Some(false))
    case Clamp => Ok(Some(false))
    case GateAnd => Ok(Some(false))
    case GateOr => Ok(Some(false))
    case GateXor => Ok(Some(false))
    case Lever => Err(Unsupported)
  }

  /** Two frames of the same width that hold the same tiles at the given
      cells. */
  ghost predicate SameTile(f0: array2<Rgba>, f1: array2<Rgba>, x: int, y: int)
    reads f0, f1
  {
    TileAt(f0, x, y) == TileAt(f1, x, y)
  }

  /** The side verdict depends on the cell and its three neighbours up, down
      and ahead, and on nothing else in the frame. */
  lemma SideIsLocal(f0: array2<Rgba>, f1: array2<Rgba>, x: int, y: int, direction: int)
    requires f0.Length0 == f1.Length0
    requires SameTile(f0, f1, x, y) && SameTile(f0, f1, x, y + 1) && SameTile(f0, f1, x, y - 1)
    requires SameTile(f0, f1, x + direction, y)
    ensures CanEnterFromSide(f0, x, y, direction) == CanEnterFromSide(f1, x, y, direction)
  {
  }

  /** The bottom verdict depends on the cell and its neighbours up, left and
      right, and on nothing else in the frame. */
  lemma BottomIsLocal(f0: array2<Rgba>, f1: array2<Rgba>, x: int, y: int)
    requires SameTile(f0, f1, x, y) && SameTile(f0, f1, x, y - 1)
    requires SameTile(f0, f1, x - 1, y) && SameTile(f0, f1, x + 1, y)
    ensures CanEnterFromBottom(f0, x, y) == CanEnterFromBottom(f1, x, y)
  {
  }

  /** How promising a verdict is: enterable, unknown, blocked. */
  function Rank(v: Option<bool>): nat {
    match v
    case Some(b) => if b then 2 else 0
    case None => 1
  }

  /** The corner's choice between the cell to its right (verdict `right`)
      and the cell to its left (verdict `left`): +1, -1, or no move when the
      verdicts are equal. */
  function CornerTurn(right: Option<bool>, left: Option<bool>): (r: Option<int>)
    ensures r == Option.None <==> right == left
    ensures r == Some(1) <==> Rank(right) > Rank(left)
    ensures r == Some(-1) <==> Rank(left) > Rank(right)
  {
    if right == left then Option.None
    else if right.GetOr(left.Some? && !left.value) then Some(1)
    else Some(-1)
  }

  /** The number of legs the junction's bookkeeping still expects. */
  function Expected(d: ClampDirection): nat {
    if d != ClampDirection.None then 1 else 2
  }

  function CountOf(v: Option<bool>, b: bool): nat {
    if v == Some(b) then 1 else 0
  }

  /** The number of legs whose verdict allows entry once unknown verdicts
      take the default `dv`, before the recorded leg is set aside. */
  function Candidates(left: Option<bool>, right: Option<bool>, bottom: Option<bool>, dv: bool): nat {
    (if left.GetOr(dv) then 1 else 0) + (if right.GetOr(dv) then 1 else 0) + (if bottom.GetOr(dv) then 1 else 0)
  }

  /** The verdict that governs a leg. The leg up is the cell above, entered
      from below; the leg `Right` is the cell at x + 1, whose verdict the
      translator calls `junctionLeft`; the leg `Left` is the cell at x - 1,
      its `junctionRight`. */
  function LegVerdict(left: Option<bool>, right: Option<bool>, bottom: Option<bool>, leg: ClampDirection): Option<bool> {
    match leg
    case Up => bottom
    case Right => left
    case Left => right
    case None => Some(false)
  }

  /** A visit of the junction traces leg `leg`: the leg is not the one
      already recorded, and its verdict (or the default) allows entry. */
  predicate Enters(left: Option<bool>, right: Option<bool>, bottom: Option<bool>, dv: bool,
                   d: ClampDirection, leg: ClampDirection) {
    leg != ClampDirection.None && !d.HasFlag(leg) && LegVerdict(left, right, bottom, leg).GetOr(dv)
  }

  /** A visit traces only the legs up, right and left, and never the leg
      already recorded. */
  lemma EntersFreeLegsOnly(left: Option<bool>, right: Option<bool>, bottom: Option<bool>, dv: bool,
                           d: ClampDirection, leg: ClampDirection)
    requires Enters(left, right, bottom, dv, d, leg)
    ensures leg == Up || leg == Right || leg == Left
    ensures leg != d && !d.HasFlag(leg)
  {
  }

  /** The number of legs a visit traces. */
  function Entered(left: Option<bool>, right: Option<bool>, bottom: Option<bool>, dv: bool, d: ClampDirection): nat {
    (if Enters(left, right, bottom, dv, d, Up) then 1 else 0) +
    (if Enters(left, right, bottom, dv, d, Right) then 1 else 0) +
    (if Enters(left, right, bottom, dv, d, Left) then 1 else 0)
  }

  /** Whether a T-junction can be resolved from its three verdicts, and if so
      the default an unknown verdict takes: with exactly one blocked leg (or
      two, once a leg has been recorded) the others are entered; with two
      enterable legs the unknown one is not. A resolved junction has two
      candidate legs, or one once a leg is recorded; the visit traces at most
      two legs, all candidates when nothing is recorded, and at most one
      fewer than the candidates otherwise, since the recorded leg is set
      aside. */
  function JunctionDefault(left: Option<bool>, right: Option<bool>, bottom: Option<bool>,
                           d: ClampDirection): (r: Option<bool>)
    ensures r.Some? ==> Candidates(left, right, bottom, r.value) == 2 ||
                        (d != ClampDirection.None && Candidates(left, right, bottom, r.value) == 1)
    ensures r.Some? ==> Entered(left, right, bottom, r.value, d) <= Candidates(left, right, bottom, r.value) <= 2
    ensures r.Some? ==> Candidates(left, right, bottom, r.value) <= Entered(left, right, bottom, r.value, d) + 1
    ensures r.Some? && d == ClampDirection.None ==> Entered(left, right, bottom, r.value, d) == Expected(d)
  {
    var trueCount := CountOf(left, true) + CountOf(right, true) + CountOf(bottom, true);
    var falseCount := CountOf(left, false) + CountOf(right, false) + CountOf(bottom, false);
    if falseCount == 1 || (falseCount == 2 && d != ClampDirection.None) then Some(true)
    else if trueCount == 2 then Some(false)
    else Option.None
  }

  /** A resolved junction may trace fewer legs than its bookkeeping expects:
      two blocked side legs and an enterable leg up that is already recorded
      resolve with the default `true`, yet no leg is traced, so that visit
      cannot propagate. */
  lemma JunctionMayFallShort()
    ensures JunctionDefault(Some(false), Some(false), Some(true), Up) == Some(true)
    ensures Entered(Some(false), Some(false), Some(true), true, Up) == 0 < Expected(Up)
  {
  }

  /** When all three verdicts are known, a junction resolves exactly when the
      number of enterable legs suits the bookkeeping. */
  lemma {:induction false} KnownJunctionResolves(left: bool, right: bool, bottom: bool, d: ClampDirection)
    ensures JunctionDefault(Some(left), Some(right), Some(bottom), d).Some? <==>
              Candidates(Some(left), Some(right), Some(bottom), false) == 2 ||
              (d != ClampDirection.None && Candidates(Some(left), Some(right), Some(bottom), false) == 1)
  {
  }

  /** With every verdict unknown a junction never resolves. */
  lemma UnknownJunctionStalls(d: ClampDirection)
    ensures JunctionDefault(Option.None, Option.None, Option.None, d) == Option.None
  {
  }
}
