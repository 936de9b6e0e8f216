/** The translator's main loop: sweep the pending components, tracing each
    one's output, until every component's inputs are set; fail when a sweep
    clamps nothing. Then the drain's formula is built. */
module Worker {
  import opened Wrappers
  import opened Tiles
  import opened Exprs
  import opened Components
  import opened ComponentEvolution
  import opened Lookup
  import opened Pixels
  import opened Extraction
  import opened Naming
  import opened CircuitMap
  import opened Tracer

  /** A sweep's snapshot: the components that have all their inputs and
      whose output has not yet been traced successfully, in table order. */
  function Pending(cs: seq<Component>): (r: seq<nat>)
    ensures forall k :: 0 <= k < |r| ==> r[k] < |cs| && IsValid(cs[r[k]]) && !cs[r[k]].processed
    ensures forall i :: 0 <= i < |cs| && IsValid(cs[i]) && !cs[i].processed ==> i in r
    ensures forall k, l :: 0 <= k < l < |r| ==> r[k] < r[l]
  {
    IndicesWhere(cs, c => IsValid(c) && !c.processed)
  }

  /** Only the components of `pending` may have their flag changed. */
  predicate FlagsKept(c0: seq<Component>, c1: seq<Component>, pending: seq<nat>) {
    |c0| == |c1| && forall i :: 0 <= i < |c0| && i !in pending ==> c1[i].processed == c0[i].processed
  }

  /** Setting a component's flag changes nothing the growth order sees. */
  lemma MarkKeepsGrowth(c0: seq<Component>, cs: seq<Component>, i: nat, b: bool)
    requires TableGrows(c0, cs) && WellFormed(cs) && i < |cs|
    ensures TableGrows(c0, cs[i := cs[i].(processed := b)]) && WellFormed(cs[i := cs[i].(processed := b)])
  {
    var cs' := cs[i := cs[i].(processed := b)];
    forall j | 0 <= j < |cs'|
      ensures RefersWithin(cs'[j].kind, |cs'|)
    {
      assert RefersWithin(cs[j].kind, |cs|);
    }
  }

  /** The cell above a component, where the trace of its output starts. */
  function StartCell(c: Component): (int, int) {
    (c.x, c.y - 1)
  }

  /** A component's start cell never moves. */
  lemma StartCellKept(c0: seq<Component>, c1: seq<Component>, i: nat)
    requires TableGrows(c0, c1) && i < |c0|
    ensures StartCell(c1[i]) == StartCell(c0[i])
  {
    GrowsKeepsPlace(c0, c1, i);
  }

  /** The cell above component i, where the trace of its output starts. */
  function Above(g: map<(int, int), Rgba>, cs: seq<Component>, i: nat): Result<Tile>
    requires i < |cs|
  {
    var p := StartCell(cs[i]);
    TileIn(g, p.0, p.1)
  }

  /** A start cell the trace cannot pass: unreadable, empty or a lever. */
  predicate Untraceable(t: Result<Tile>) {
    t.Err? || t.value == Tile.None || t.value == Lever
  }

  /** A start cell where the trace ends at once: a clamp, or a gate or lamp
      that takes the traced component as its input. */
  predicate EndsAtOnce(t: Result<Tile>) {
    t.Ok? && (t.value == Clamp || t.value == GateAnd || t.value == GateOr || t.value == GateXor ||
              t.value == Lamp || t.value == GateNot)
  }

  /** A start cell where the trace of component i succeeds at once: it ends
      the walk, and the walk lands there (a clamp, or a gate or lamp the
      lookup finds). */
  predicate StartSucceeds(s: MapState, i: nat)
    requires i < |s.components|
  {
    var p := StartCell(s.components[i]);
    SucceedsAt(s, p.0, p.1)
  }

  /** A start that succeeds at once keeps succeeding while the map evolves:
      the component stays where it is, and `LandsStable`. */
  lemma StartSucceedsStays(s0: MapState, s1: MapState, i: nat)
    requires GridEvolves(s0.cells, s1.cells) && TableGrows(s0.components, s1.components)
    requires i < |s0.components| && StartSucceeds(s0, i)
    ensures StartSucceeds(s1, i)
  {
    StartCellKept(s0.components, s1.components, i);
    var p := StartCell(s0.components[i]);
    SucceedsStays(s0, s1, p.0, p.1);
  }

  /** What the start cell alone says of a trace that lands there when it
      ends the walk: an untraceable cell fails, a cell that ends the trace
      at once propagates unless the gate lookup fails, and a start that
      succeeds at once propagates. */
  lemma StartOutcome(s: MapState, i: nat, r: Result<bool>)
    requires i < |s.components|
    requires EndsWalk(Above(s.cells, s.components, i)) ==> r == Lands(s, StartCell(s.components[i]).0, StartCell(s.components[i]).1)
    ensures Untraceable(Above(s.cells, s.components, i)) ==> r.Err?
    ensures EndsAtOnce(Above(s.cells, s.components, i)) ==> r == Ok(true) || r == Err(NotUnique)
    ensures StartSucceeds(s, i) ==> r == Ok(true)
  {
    var t := Above(s.cells, s.components, i);
    if Untraceable(t) {
      assert TileVerdict(t).Some? && TileVerdict(t).value.Err?;
    }
  }

  /** A trace from a start that succeeded at once when the sweep began
      succeeds. */
  lemma SucceedsAtOnce(s0: MapState, s: MapState, i: nat, r: Result<bool>)
    requires GridEvolves(s0.cells, s.cells) && TableGrows(s0.components, s.components) && i < |s0.components|
    requires StartSucceeds(s, i) ==> r == Ok(true)
    ensures StartSucceeds(s0, i) ==> r == Ok(true)
  {
    if StartSucceeds(s0, i) {
      StartSucceedsStays(s0, s, i);
    }
  }

  /** Traces a component's output from the cell above it, as a sweep does;
      no flag changes. An untraceable start cell fails; a start cell that
      ends the trace at once propagates, unless the gate lookup fails. */
  method TraceOutput(m: Map, i: nat, fuel: nat) returns (r: Result<bool>)
    requires m.Valid() && i < |m.components|
    modifies m, m.frame
    ensures m.Valid() && TableGrows(old(m.components), m.components)
    ensures forall k :: 0 <= k < |m.components| ==> m.components[k].processed == old(m.components)[k].processed
    ensures GridEvolves(old(m.Cells()), m.Cells()) && old(m.clampCount) <= m.clampCount
    ensures Untraceable(old(Above(m.Cells(), m.components, i))) ==> r.Err?
    ensures EndsAtOnce(old(Above(m.Cells(), m.components, i))) ==> r == Ok(true) || r == Err(NotUnique)
    ensures r != Err(Stuck)
    ensures StartSucceeds(old(m.State()), i) ==> r == Ok(true)
  {
    ghost var before := m.components;
    ghost var s0 := m.State();
    var component := m.components[i];
    var start := StartCell(component);
    assert TileAt(m.frame, start.0, start.1) == Above(s0.cells, s0.components, i);
    r := TraceComponent(m, i, start.0, start.1, component.x, component.y, fuel);
    StartOutcome(s0, i, r);
    RewiredKeepsWellFormed(before, m.components, i);
    forall k | 0 <= k < |m.components|
      ensures m.components[k].processed == before[k].processed
    {
      assert Rewired(before[k], m.components[k], i);
    }
  }

  /** The first k components of a sweep's snapshot are done: only snapshot
      flags changed, no start cell among the first k was untraceable, and
      each of them whose trace ends at once is processed. */
  predicate SweptUpTo(c0: seq<Component>, g0: map<(int, int), Rgba>, cs: seq<Component>, pending: seq<nat>, k: nat)
    requires k <= |pending| && forall j :: 0 <= j < |pending| ==> pending[j] < |c0|
  {
    FlagsKept(c0, cs, pending) &&
    (forall j :: 0 <= j < k ==> !Untraceable(Above(g0, c0, pending[j]))) &&
    (forall j :: 0 <= j < k && EndsAtOnce(Above(g0, c0, pending[j])) ==> cs[pending[j]].processed)
  }

  /** A start cell that is not wire-like is the same when the trace starts
      as when the sweep began. */
  lemma StartKept(g0: map<(int, int), Rgba>, c0: seq<Component>, g: map<(int, int), Rgba>, cs: seq<Component>, i: nat)
    requires GridEvolves(g0, g) && TableGrows(c0, cs) && i < |c0|
    ensures Untraceable(Above(g0, c0, i)) ==> Untraceable(Above(g, cs, i))
    ensures EndsAtOnce(Above(g0, c0, i)) ==> EndsAtOnce(Above(g, cs, i))
  {
    StartCellKept(c0, cs, i);
    var start, p := Above(g0, c0, i), StartCell(c0[i]);
    if !(start.Ok? && IsPassThrough(start.value)) {
      FixedCellStays(g0, g, p.0, p.1);
    }
  }

  /** Tracing the k-th snapshot component, which changes no flag, and then
      recording the outcome in its flag, extends the sweep by one. */
  lemma SweepStep(c0: seq<Component>, g0: map<(int, int), Rgba>, cs1: seq<Component>, cs2: seq<Component>,
                  pending: seq<nat>, k: nat, b: bool)
    requires k < |pending| && forall j :: 0 <= j < |pending| ==> pending[j] < |c0|
    requires forall j, l :: 0 <= j < l < |pending| ==> pending[j] < pending[l]
    requires SweptUpTo(c0, g0, cs1, pending, k)
    requires |cs2| == |cs1| && forall i :: 0 <= i < |cs1| ==> cs2[i].processed == cs1[i].processed
    requires !Untraceable(Above(g0, c0, pending[k]))
    requires EndsAtOnce(Above(g0, c0, pending[k])) ==> b
    ensures SweptUpTo(c0, g0, cs2[pending[k] := cs2[pending[k]].(processed := b)], pending, k + 1)
  {
  }

  /** One sweep: traces every pending component from the cell above it and
      records in its flag whether the trace propagated. A sweep that
      completes met no untraceable start cell, and every pending component
      whose trace ends at once is processed. */
  method Sweep(m: Map, fuel: nat) returns (r: Result<()>)
    requires m.Valid()
    modifies m, m.frame
    ensures m.Valid() && TableGrows(old(m.components), m.components)
    ensures FlagsKept(old(m.components), m.components, Pending(old(m.components)))
    ensures GridEvolves(old(m.Cells()), m.Cells())
    ensures old(m.clampCount) <= m.clampCount && r != Err(Stuck)
    ensures var p := Pending(old(m.components));
            r.Ok? ==> forall k :: 0 <= k < |p| ==> !Untraceable(Above(old(m.Cells()), old(m.components), p[k]))
    ensures var p := Pending(old(m.components));
            r.Ok? ==> forall k :: 0 <= k < |p| && EndsAtOnce(Above(old(m.Cells()), old(m.components), p[k])) ==>
                        m.components[p[k]].processed
    ensures var p := Pending(old(m.components));
            (forall k :: 0 <= k < |p| ==> StartSucceeds(old(m.State()), p[k])) ==> r.Ok?
  {
    ghost var s0 := m.State();
    ghost var c0 := m.components;
    ghost var g0 := m.Cells();
    var pending := Pending(m.components);
    for k := 0 to |pending|
      invariant m.Valid() && TableGrows(c0, m.components)
      invariant GridEvolves(g0, m.Cells())
      invariant old(m.clampCount) <= m.clampCount
      invariant SweptUpTo(c0, g0, m.components, pending, k)
    {
      var i := pending[k];
      ghost var before := m.components;
      ghost var g := m.Cells();
      StartKept(g0, c0, g, before, i);
      ghost var here := Above(m.Cells(), m.components, i);
      ghost var now := m.State();
      assert now.cells == g && now.components == before;
      var traced := TraceOutput(m, i, fuel);
      assert s0.cells == g0 && s0.components == c0;
      SucceedsAtOnce(s0, now, i, traced);
      assert Untraceable(here) ==> traced.Err?;
      assert EndsAtOnce(here) ==> traced == Ok(true) || traced == Err(NotUnique);
      TableGrowsTransitive(c0, before, m.components);
      GridEvolvesTransitive(g0, g, m.Cells());
      if traced.Err? {
        return Err(traced.error);
      }
      MarkKeepsGrowth(c0, m.components, i, traced.value);
      SweepStep(c0, g0, before, m.components, pending, k, traced.value);
      m.SetProcessed(i, traced.value);
    }
    return Ok(());
  }

  /** Sweeps until every component has all its inputs. A sweep after which
      the clamp counter equals its value after the previous sweep (zero
      before the first) means the translator is stuck; `sweeps` bounds the
      number of sweeps, which the translator leaves unbounded. `n` is the
      number of sweeps that completed: each one past the first clamped at
      least one more cell. */
  method Resolve(m: Map, sweeps: nat, fuel: nat) returns (r: Result<()>, ghost n: nat)
    requires m.Valid()
    modifies m, m.frame
    ensures m.Valid() && TableGrows(old(m.components), m.components)
    ensures GridEvolves(old(m.Cells()), m.Cells())
    ensures old(m.clampCount) <= m.clampCount && n <= sweeps
    ensures r.Ok? ==> AllValid(m.components)
    ensures r.Ok? ==> m.clampCount >= n && m.clampCount + 1 >= old(m.clampCount) + n
    ensures r.Ok? && !old(AllValid(m.components)) ==> n >= 1
    ensures old(AllValid(m.components)) ==> r == Ok(()) && n == 0 && m.State() == old(m.State())
    ensures !old(AllValid(m.components)) && sweeps == 0 ==> r == Err(Exhausted)
    ensures r == Err(Stuck) && n == 0 ==> m.clampCount == 0
  {
    ghost var s0 := m.State();
    ghost var c0 := m.components;
    ghost var g0 := m.Cells();
    n := 0;
    var lastClampCount := 0;
    var remaining: nat := sweeps;
    while !AllValid(m.components)
      invariant m.Valid() && TableGrows(c0, m.components)
      invariant GridEvolves(g0, m.Cells())
      invariant old(m.clampCount) <= m.clampCount
      invariant n + remaining == sweeps && (AllValid(c0) ==> n == 0)
      invariant n == 0 ==> lastClampCount == 0 && m.State() == s0
      invariant n > 0 ==> lastClampCount == m.clampCount && m.clampCount >= n &&
                          m.clampCount + 1 >= old(m.clampCount) + n
      decreases remaining
    {
      if remaining == 0 {
        return Err(Exhausted), n;
      }
      remaining := remaining - 1;
      ghost var cs := m.components;
      ghost var g := m.Cells();
      var swept := Sweep(m, fuel);
      TableGrowsTransitive(c0, cs, m.components);
      GridEvolvesTransitive(g0, g, m.Cells());
      if swept.Err? {
        return Err(swept.error), n;
      }
      if m.clampCount == lastClampCount {
        return Err(Stuck), n;
      }
      lastClampCount := m.clampCount;
      n := n + 1;
    }
    return Ok(()), n;
  }

  /** `OfType<Drain>().Single().BuildExpression()`: the formula of the one
      lamp; several lamps, or none, fail the lookup. */
  function DrainExpression(cs: seq<Component>, fuel: nat): (r: Result<Expr>)
    requires WellFormed(cs)
    ensures r.Ok? ==> Vars(r.value) <= SourceVars(cs)
    ensures r == Err(NotUnique) <==> SingleIndex(cs, IsDrain).Err?
    ensures AllValid(cs) ==> r != Err(NullInput)
  {
    var d :- SingleIndex(cs, IsDrain);
    BuildExpression(cs, d, fuel)
  }

  /** The drain's formula, evaluated under any setting of the levers, is the
      value the circuit carries to the lamp. */
  lemma DrainIsCircuit(cs: seq<Component>, env: string -> bool, fuel: nat)
    requires WellFormed(cs) && DrainExpression(cs, fuel).Ok?
    ensures SingleIndex(cs, IsDrain).Ok?
    ensures CircuitValue(cs, SingleIndex(cs, IsDrain).value, env, fuel) ==
              Some(Eval(DrainExpression(cs, fuel).value, env))
  {
    BuildMatchesCircuit(cs, SingleIndex(cs, IsDrain).value, env, fuel);
  }

  /** The drain's formula depends only on the levers: two settings that
      agree on every source variable give it the same value. */
  lemma DrainDependsOnLevers(cs: seq<Component>, env1: string -> bool, env2: string -> bool, fuel: nat)
    requires WellFormed(cs) && DrainExpression(cs, fuel).Ok?
    requires forall n :: n in SourceVars(cs) ==> env1(n) == env2(n)
    ensures Eval(DrainExpression(cs, fuel).value, env1) == Eval(DrainExpression(cs, fuel).value, env2)
  {
    EvalDependsOnVars(DrainExpression(cs, fuel).value, env1, env2);
  }

  /** Growth never adds, removes or renames a source. */
  lemma {:induction false} GrowsKeepsSourceVars(c0: seq<Component>, c1: seq<Component>)
    requires TableGrows(c0, c1)
    ensures SourceVars(c0) == SourceVars(c1)
  {
    forall n | n in SourceVars(c0) ensures n in SourceVars(c1) {
      var i :| 0 <= i < |c0| && c0[i].kind.Source? && n in Vars(c0[i].kind.value);
      assert Grows(c0[i], c1[i]);
    }
    forall n | n in SourceVars(c1) ensures n in SourceVars(c0) {
      var i :| 0 <= i < |c1| && c1[i].kind.Source? && n in Vars(c1[i].kind.value);
      assert Grows(c0[i], c1[i]);
    }
  }

  /** Every source's value occurs among the table's source values. */
  lemma {:induction false} SourceValueListed(cs: seq<Component>, i: nat)
    requires i < |cs| && cs[i].kind.Source?
    ensures cs[i].kind.value in SourceValues(cs)
    decreases |cs|
  {
    var n := |cs| - 1;
    if i < n {
      SourceValueListed(cs[..n], i);
    }
  }

  /** The variables of a scanned table are the lever names S001 .. Snnn,
      one per lever. */
  lemma ScanVarsAreLeverNames(frame: array2<Rgba>)
    requires Scan(frame).Ok?
    ensures forall n :: n in SourceVars(Scan(frame).value.components) ==>
              exists j :: 1 <= j <= Scan(frame).value.sources && n == SourceName(j)
  {
    var st := Scan(frame).value;
    ScanNames(frame, frame.Length0, 0);
    forall n | n in SourceVars(st.components)
      ensures exists j :: 1 <= j <= st.sources && n == SourceName(j)
    {
      var i :| 0 <= i < |st.components| && st.components[i].kind.Source? &&
               n in Vars(st.components[i].kind.value);
      SourceValueListed(st.components, i);
      var k :| 0 <= k < |Names(st.sources)| && Names(st.sources)[k] == st.components[i].kind.value;
      assert n == SourceName(k + 1);
    }
  }

  /** The translator without the solver: load the frame, resolve every
      input, and build the lamp's formula. `cs` is the table once every
      input is resolved: it grew from the scanned table, every component in
      it is valid, and the formula is its drain's. The formula's variables
      are lever names. */
  method Translate(frame: array2<Rgba>, sweeps: nat, fuel: nat) returns (r: Result<Expr>, ghost cs: seq<Component>)
    modifies frame
    ensures old(Scan(frame)).Err? ==> r == Err(old(Scan(frame)).error)
    ensures r.Ok? ==>
              old(Scan(frame)).Ok? && TableGrows(old(Scan(frame)).value.components, cs) &&
              WellFormed(cs) && AllValid(cs) && DrainExpression(cs, fuel) == Ok(r.value)
    ensures r.Ok? ==> old(Scan(frame)).Ok? && forall n :: n in Vars(r.value) ==>
              exists j :: 1 <= j <= old(Scan(frame)).value.sources && n == SourceName(j)
  {
    cs := [];
    var m :- Map.Load(frame);
    ghost var c0 := m.components;
    ScanVarsAreLeverNames(frame);
    var resolved, sweepCount := Resolve(m, sweeps, fuel);
    cs := m.components;
    if resolved.Err? {
      return Err(resolved.error), cs;
    }
    GrowsKeepsSourceVars(c0, m.components);
    r := DrainExpression(m.components, fuel);
  }
}
