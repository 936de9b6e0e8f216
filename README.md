# TranslateCircuitMap in Dafny

TranslateCircuitMap reads a picture of a logic circuit. Every pixel is a
tile: an empty cell, a lever, a lamp, a wire, a corner, a T-junction, a
crossover, an AND, NOT, OR or XOR gate, or a clamp. From the picture it
derives a Boolean formula for the lamp over one variable per lever. Its
solver then finds lever settings that light the lamp.

This project models the translator up to the formula:

- The colour table and the reading of a cell (`Pixels`, `Tiles`).
- The components: sources (levers), single-input gates (NOT, and the lamp's
  drain) and two-input gates (AND, OR, XOR), with their validity and the
  formula each builds (`Components`). Inputs refer to components by index
  in the table.
- The column-major scan that extracts the components and names the sources
  `S001`, `S002`, ... (`Extraction`, `Naming`, `Map.ExtractComponents`).
- The map: the pixel frame (an `array2`), the component table, the
  junction bookkeeping and the clamp counter (`CircuitMap.Map`). It has the
  operations `ClampDown`, `DegradeJunction` and `GetJunctionClampDirection`.
- The look-ahead verdicts `CanEnterFromSide` and `CanEnterFromBottom`, with
  the corner and T-junction decisions built on them (`Oracles`).
- The recursive tracer, `TraceComponent` and its parts (`Tracer`).
- The sweep loop and the drain's formula (`Worker`).

The main proved properties:

- The scan finds exactly the component cells, in column-major order, and
  names the levers `S001`, `S002`, ... in that order. Its names sort in
  numbering order up to 999 levers, and from the 1000th on they do not.
- A scan fails exactly when a cell has a colour outside the table.
- While a trace runs, the map only evolves: a cell only degrades (wire to
  clamp, crossover to wire), junction entries appear only at junction
  cells, inputs are set only to the traced component, and the clamp counter
  never decreases.
- Each look-ahead verdict reads the neighbouring cells in the translator's
  order and stops where it stops, so it fails exactly when one of the reads
  the translator makes fails.
- A trace's first step is stated for every tile. It fails on an unreadable
  cell, an empty cell or a lever, and ends at once on a clamp. A gate, lamp
  or NOT takes the traced component as an input. From a wire-like cell it
  takes one step on: straight on through a wire or crossover, up from a
  corner entered from its row, or sideways from a corner towards the better
  verdict. Where that next cell ends the walk, the outcome and the whole new
  map are stated, whatever the tile there: a clamp, a gate, lamp or NOT that
  takes the input, an empty cell, a lever or an unreadable cell. A step with
  no fuel left fails, and a cell that propagates is clamped.
- A T-junction traces only legs not yet recorded whose verdict allows
  entry, up, right and left in that order. It propagates only if at least
  as many legs propagated as its bookkeeping expects, and then exactly so.
  An entered leg into a cell that ends the walk has the outcome of landing
  there. It fails the visit where landing fails: an unreadable, empty or
  lever cell, or a gate, lamp or NOT that the lookup does not find exactly
  once. When the visit succeeds, such a leg is among the legs that
  propagated where landing succeeds: a clamp, or a gate, lamp or NOT found
  once. Every leg that propagated into a wire-like cell has clamped that
  cell.
- A sweep that completes met no untraceable start cell. It marks as
  processed every pending component whose trace ends at once. A sweep in
  which every start succeeds at once completes. Every completed sweep
  after the first clamps at least one more cell.
- The drain's formula contains only lever names. When it can be built it
  evaluates, under any lever setting, to the value the circuit carries to
  the lamp.

Other modelling choices:

- Exceptions become `Err` values of `Wrappers.Error`:
  - `KeyNotFoundException` from the colour table becomes `UnknownColour`;
  - an index outside the image becomes `OutOfRange`;
  - `NotImplementedException` becomes `Unsupported`;
  - `Single()` failing becomes `NotUnique`;
  - a null input dereferenced becomes `NullInput`;
  - "Iteration is stuck" becomes `Stuck`.
- The unbounded recursions and the unbounded loop get explicit bounds
  (`fuel`, `sweeps`), which fail with `Exhausted`.
- A Z3 `BoolExpr` becomes the datatype `Exprs.Expr`. `Context.MkAnd`,
  `MkOr`, `MkXor` and `MkNot` become its constructors. A builder delegate
  becomes a tag (`UnaryFn`, `BinaryFn`).

The declarations of `Drain` and `ClampDirection` are not part of this model.
`Drain` is modelled as a single-input gate whose builder is the identity,
which is how its uses in Program.cs:308-309 and Map.cs:95-96 treat it.
`ClampDirection` is modelled as `None | Up | Left | Right`. Here
`HasFlag(f)` holds when `f` is `None` or equal to the recorded value. That
is C#'s `Enum.HasFlag` when the three legs are distinct bit flags.

Three behaviours of the code worth noting:

- The look-ahead for a plain wire returns at the first cell it inspects.
  The code's second test, `current != Tile.Wire || current !=
  Tile.WireCrossover`, holds for every tile, so the loop in
  Program.cs:45-56 and Program.cs:108-119 never reaches a second cell. It
  does not scan along the wire.
- A sweep traces the components that are valid and not yet processed
  (Program.cs:291). These are the ones whose inputs are all set, not the
  ones still waiting for inputs.
- A junction's bookkeeping holds one direction per cell. Each
  `DegradeJunction` overwrites it (Map.cs:126-129). Only `ClampDown`
  removes it (Map.cs:118-121). Directions do not accumulate into a flag
  set.

## Model

| member | source | states |
|---|---|---|
| Tiles.Ordinal | TranslateCircuitMap/Tile.cs:3-17 | each kind's numeric value indexes that kind in the declaration-order list |
| Tiles.KindsAreTwelveAndDistinct | TranslateCircuitMap/Tile.cs:3-17 | there are exactly twelve kinds, all listed once, numbered from 0 (None) to 11 (Clamp) |
| Tiles.OrdinalIsBijective | TranslateCircuitMap/Tile.cs:5-16 | every value below twelve names exactly one kind, and no two kinds share a value |
| Pixels.ColourOfDecodes | TranslateCircuitMap/Map.cs:14-27 | the colour table maps each kind's colour back to that kind, so no two kinds share a colour |
| Pixels.DecodeIsColourOf | TranslateCircuitMap/Map.cs:14-27 | every colour in the table is the colour of the kind it decodes to |
| Pixels.ColourTableHasTwelveEntries | TranslateCircuitMap/Map.cs:14-27 | the table holds exactly twelve colours |
| Pixels.ClampColoursDecode | TranslateCircuitMap/Map.cs:110-117 | the two colours ClampDown paints decode to a wire and to a clamp |
| Pixels.TileAt | TranslateCircuitMap/Map.cs:62-68 | reading a cell succeeds iff it is inside the frame and its colour is in the table, and then gives the kind whose colour the pixel has |
| Exprs.EvalDependsOnVars | TranslateCircuitMap/Program.cs:307-309 | a formula's value depends only on the variables it mentions |
| Naming.PadZeros | TranslateCircuitMap/Map.cs:100 | the `D3` padding keeps the digits as a suffix, fills with zeros up to three characters, and never truncates |
| Naming.SourceName | TranslateCircuitMap/Map.cs:100 | a source name is `S` followed by at least three decimal digits, exactly three iff the number is below one thousand |
| Naming.DecimalShape | TranslateCircuitMap/Map.cs:100 | the decimal form of a number is made of digits, at most three of them iff the number is below one thousand |
| Naming.PaddedDigits | TranslateCircuitMap/Map.cs:100 | below one thousand, `D3` gives the hundreds, tens and units digits |
| Naming.SourceNameDigits | TranslateCircuitMap/Map.cs:100 | below one thousand a source name is `S` followed by the three decimal digits of its number |
| Naming.SourceNamesOrdered | TranslateCircuitMap/Program.cs:315 | for numbers 1 to 999, names are distinct, and sorting them by ordinal string order gives numbering order |
| Naming.NameOrderBreaksAtOneThousand | TranslateCircuitMap/Program.cs:315 | `S1000` sorts before `S101`, so from the thousandth lever on, name order differs from numbering order |
| Components.IsValid | TranslateCircuitMap/Source.cs:7 | a source is always valid |
| Components.ValidIffSlotsSet | TranslateCircuitMap/MultiInputGate.cs:15 | a component is valid iff none of its input slots is empty: the single input of a single-input gate (SingleInputGate.cs:13), both inputs of a two-input gate |
| Components.NewSource | TranslateCircuitMap/Source.cs:11-15 | a new source is at its cell with its value, is valid and is not processed |
| Components.NewSingleInputGate | TranslateCircuitMap/SingleInputGate.cs:15-19 | a new single-input gate is at its cell with its builder, has no input, is not valid and is not processed |
| Components.NewMultiInputGate | TranslateCircuitMap/MultiInputGate.cs:17-21 | a new two-input gate is at its cell with its builder, has neither input, is not valid and is not processed |
| Components.NewDrain | TranslateCircuitMap/Map.cs:95-96 | a new drain is at its cell, has no input, is not valid and is not processed |
| Components.SetInput | TranslateCircuitMap/SingleInputGate.cs:11-13 | assigning the input makes the gate valid; its cell, builder and flag stay unchanged |
| Components.SetInputLeft | TranslateCircuitMap/MultiInputGate.cs:11-15 | assigning the left input leaves the right input, builder, cell and flag unchanged; the gate is then valid iff the right input is set |
| Components.SetInputRight | TranslateCircuitMap/MultiInputGate.cs:13-15 | assigning the right input leaves the left input, builder, cell and flag unchanged; the gate is then valid iff the left input is set |
| Components.BuildExpression | TranslateCircuitMap/SingleInputGate.cs:21-24 | a built formula comes from a valid component and mentions only source variables; with every component valid, no unset input is met; the only failures are an unset input and the depth bound |
| Components.BuildMatchesCircuit | TranslateCircuitMap/MultiInputGate.cs:23-26 | a formula can be built iff the circuit (sources, then gates applying their builders to their inputs) has a value there, and it then evaluates to that value |
| Components.BuildFuelMonotone | TranslateCircuitMap/Component.cs:21 | a formula built within a depth bound is unchanged under any larger bound |
| ComponentEvolution.GrowsKeepsValid | TranslateCircuitMap/MultiInputGate.cs:15 | once every input of a component is set, later steps never make it invalid again |
| ComponentEvolution.RewiredKeepsWellFormed | TranslateCircuitMap/Program.cs:254-267 | setting inputs to a component of the table keeps every reference inside the table and is a growth |
| ComponentEvolution.SetInputRewires | TranslateCircuitMap/Program.cs:267 | assigning a single-input gate's input to the traced component changes nothing else in the table |
| ComponentEvolution.SetInputSideRewires | TranslateCircuitMap/Program.cs:255-262 | assigning one side of a two-input gate to the traced component changes nothing else in the table |
| Lookup.IndicesWhere | TranslateCircuitMap/Program.cs:291 | `Where`: exactly the matching components, in increasing table order |
| Lookup.SingleIndex | TranslateCircuitMap/Program.cs:308 | `Single`: succeeds with the only match, and fails iff there is no match or there are two |
| Lookup.GateAt | TranslateCircuitMap/Program.cs:254-267 | `OfType<..>().Single(..)` by cell: success gives the only component of that gate type at the cell; failure is `NotUnique`, with no such component or at least two |
| Lookup.IndicesWhereAgree | TranslateCircuitMap/Program.cs:254 | tables that agree on a predicate, position by position, have the same matches |
| Lookup.GateAtStable | TranslateCircuitMap/Program.cs:254 | rewiring inputs never changes which gate a lookup by cell finds |
| Extraction.EmitShape | TranslateCircuitMap/Map.cs:77-101 | visiting a cell appends exactly one component for a gate, lamp or lever cell, at that cell, of the variant its tile calls for, and nothing for any other cell; a lever adds a source named after the incremented source count, no other tile changes the count |
| Extraction.ScanSound | TranslateCircuitMap/Map.cs:70-105 | every extracted component lies inside the frame, before the scan position, on a cell whose tile calls for exactly that variant with no inputs and no flag |
| Extraction.ScanOrdered | TranslateCircuitMap/Map.cs:73-76 | the components come in strictly increasing column-major order, so no two share a cell |
| Extraction.ScanComplete | TranslateCircuitMap/Map.cs:77-102 | every gate, lamp and lever cell before the scan position produced a component |
| Extraction.ScanNames | TranslateCircuitMap/Map.cs:99-101 | the sources are named S001, S002, ... in scan order, and the counter equals their number |
| Extraction.ScanFails | TranslateCircuitMap/Map.cs:66 | the scan fails iff some cell before the position has a colour outside the table, and the failure is an unknown colour |
| CircuitMap.EvolvesKeepsWire | TranslateCircuitMap/Map.cs:110-117 | a wire-like cell stays readable as the map evolves, and is a crossover afterwards only if it was before |
| CircuitMap.ClampKeepsEvolving | TranslateCircuitMap/Map.cs:107-124 | clamping a wire-like cell keeps the map evolving and leaves that cell clamped |
| CircuitMap.DegradeKeepsEvolving | TranslateCircuitMap/Map.cs:126-129 | recording a leg at a junction cell keeps the map evolving |
| CircuitMap.EvolvesTransitive | TranslateCircuitMap/Program.cs:150-281 | the ways a trace may change the map compose over nested traces |
| CircuitMap.FixedCellStays | TranslateCircuitMap/Map.cs:107-124 | while the grid evolves, a cell that is not wire-like never changes: unreadable stays unreadable, and any other kind stays that kind |
| CircuitMap.Map.constructor | TranslateCircuitMap/Map.cs:45-52 | a new map holds the frame and the components, an empty junction record and a zero clamp count |
| CircuitMap.Map.ExtractComponents | TranslateCircuitMap/Map.cs:70-105 | the nested column and row loops return exactly the scan's components, or its error |
| CircuitMap.Map.Load | TranslateCircuitMap/Map.cs:45-52 | loading succeeds iff the scan does; the new map is well formed, holds the scanned components, has no junction entries and a zero count; its error is the scan's |
| CircuitMap.Map.GetJunctionClampDirection | TranslateCircuitMap/Map.cs:131-141 | the recorded direction of a cell, or `None` when nothing is recorded |
| CircuitMap.Map.ClampDown | TranslateCircuitMap/Map.cs:107-124 | the new state: a crossover cell becomes a wire, any other cell a clamp; a junction's entry is dropped; the counter goes up by one; nothing else changes |
| CircuitMap.Map.SetProcessed | TranslateCircuitMap/Program.cs:293 | the flag of component i becomes the given value; the rest of the table, the cells, the junction record and the counter are unchanged |
| CircuitMap.Map.DegradeJunction | TranslateCircuitMap/Map.cs:126-129 | the cell's entry becomes the given direction, every other cell's entry and the rest of the map are unchanged |
| Oracles.Irrelevant | TranslateCircuitMap/Program.cs:10-22 | a readable cell is irrelevant iff it is empty, a clamp or a lever; an unreadable cell fails with the read's error |
| Oracles.CanEnterFromSide | TranslateCircuitMap/Program.cs:24-85 | the side verdict for each tile: a junction is enterable iff the cell below is irrelevant, otherwise unknown; a corner is enterable iff the cell ahead is irrelevant, otherwise unknown; a wire is enterable iff a cell above or below is irrelevant, and blocked iff neither is and the cell ahead is irrelevant or off the frame; gates and crossover are enterable; lamp, NOT, empty and clamp are blocked; a lever is unsupported; a failing read fails; for a junction, wire or corner the verdict succeeds exactly when every read along the translator's short-circuit order (below, then above, then ahead for a wire) succeeds |
| Oracles.CanEnterFromBottom | TranslateCircuitMap/Program.cs:87-148 | the bottom verdict for each tile: a junction is enterable iff a cell above, left or right is irrelevant, otherwise unknown; a corner is enterable iff the cell above is irrelevant, otherwise unknown; a wire is enterable iff a side cell is irrelevant, and blocked iff neither is and the cell above exists and is irrelevant; crossover, lamp and NOT are enterable; empty, clamp and two-input gates are blocked; a lever is unsupported; the verdict succeeds exactly when every read along the translator's short-circuit order (above, left, right for a junction; left, right, above for a wire; above for a corner) succeeds |
| Oracles.SideIsLocal | TranslateCircuitMap/Program.cs:24-85 | the side verdict depends only on the cell and its neighbours above, below and ahead |
| Oracles.BottomIsLocal | TranslateCircuitMap/Program.cs:87-148 | the bottom verdict depends only on the cell and its neighbours above, left and right |
| Oracles.CornerTurn | TranslateCircuitMap/Program.cs:167-178 | a corner does not move iff both verdicts are equal, and otherwise turns towards the more promising side (enterable over unknown over blocked) |
| Oracles.JunctionDefault | TranslateCircuitMap/Program.cs:187-207 | a resolved junction has two candidate legs, or one once a leg is recorded; the visit enters at most two legs, all candidates when nothing is recorded, otherwise at least all candidates but one, so possibly fewer than the bookkeeping expects |
| Oracles.EntersFreeLegsOnly | TranslateCircuitMap/Program.cs:212-230 | a visit enters only the legs up, right and left, and never the leg already recorded |
| Oracles.JunctionMayFallShort | TranslateCircuitMap/Program.cs:198-243 | two blocked sides and an enterable leg up that is already recorded resolve with default true, yet no leg is entered and one is expected |
| Oracles.KnownJunctionResolves | TranslateCircuitMap/Program.cs:196-207 | with three known verdicts, a junction resolves iff exactly two legs are enterable, or one while a leg is recorded |
| Oracles.UnknownJunctionStalls | TranslateCircuitMap/Program.cs:245-248 | with every verdict unknown, a junction never resolves |
| Tracer.Attach | TranslateCircuitMap/Program.cs:254-267 | a single-input gate takes the component as its input; a two-input gate takes it on the right iff the trace arrives from the left, otherwise on the left |
| Tracer.AttachRewires | TranslateCircuitMap/Program.cs:254-267 | attaching is a rewiring to the traced component |
| Tracer.AttachedState | TranslateCircuitMap/Program.cs:254-267 | a gate taking an input changes neither the cells, the junction record nor the clamp counter |
| Tracer.Landing | TranslateCircuitMap/Program.cs:251-274 | a walk reaching a cell decides there at once exactly when the cell ends the walk, agrees with the tile's own verdict, and never reports "not propagated" |
| Tracer.TileVerdict | TranslateCircuitMap/Program.cs:270-274 | a tile that decides a walk on its own (unreadable, clamp, empty, lever) is one that ends the walk |
| Tracer.Lands | TranslateCircuitMap/Program.cs:251-274 | a walk ending at a cell never reports "not propagated": a clamp succeeds, an unreadable cell fails with its read error, an empty cell or a lever is unsupported |
| Tracer.Landed | TranslateCircuitMap/Program.cs:251-268 | reaching a cell that ends the walk changes neither the cells, the junction record nor the counter, and a failing landing changes nothing |
| Tracer.LandsStable | TranslateCircuitMap/Program.cs:251-274 | while the map evolves, a cell that ends a walk keeps its tile, and landing there keeps its outcome |
| Tracer.SucceedsStays | TranslateCircuitMap/Program.cs:251-271 | a walk that succeeds at a cell that ends it keeps succeeding there while the map evolves |
| Tracer.TraceComponent | TranslateCircuitMap/Program.cs:150-281 | the outcome of entering each kind of tile: a failing read fails and changes nothing; a clamp succeeds and changes nothing; an empty cell or lever is unsupported; a gate, lamp or NOT takes the component as an input by a unique lookup, failing and changing nothing otherwise; a wire, crossover or corner takes one step on, and where that step decides the walk (a failing read, no next cell, no fuel, or a next cell that ends the walk) the outcome and the whole new map are the step's, with the cell clamped when it propagated; a stalled junction yields no propagation and no change; a wire-like cell that propagates is clamped; in every case the map only evolves |
| Tracer.Land | TranslateCircuitMap/Program.cs:251-274 | landing on a cell that ends the walk has the outcome `Lands` and leaves the map `Landed` |
| Tracer.PassThrough | TranslateCircuitMap/Program.cs:155-249 | for a wire, crossover or corner whose step decides the walk, the outcome and the whole new map are the step's, with the cell clamped when it propagated; a stalled junction yields no propagation and no change; a wire-like cell that propagates is clamped, and the map only evolves |
| Tracer.TraceWire | TranslateCircuitMap/Program.cs:155-281 | for a wire, crossover or corner whose step decides the walk (a failing read, no next cell, no fuel, or a next cell that ends the walk: clamp, gate, lamp, NOT, empty, lever or unreadable), the outcome and the whole new map are the step's, with the cell clamped when it propagated; a stalled junction yields no propagation and no change; a propagating cell is clamped |
| Tracer.TraceStep | TranslateCircuitMap/Program.cs:155-249 | the same steps as `TraceWire` before the cell is clamped: where the step decides the walk, its outcome and new map; a stalled junction changes nothing |
| Tracer.Follow | TranslateCircuitMap/Program.cs:155-179 | moving on to the next cell: a failing read fails unchanged, no next cell yields no propagation unchanged, no fuel left fails with `Exhausted` unchanged, and a next cell that ends the walk gives `Lands` and `Landed` |
| Tracer.AttachInput | TranslateCircuitMap/Program.cs:251-268 | the unique gate at the cell takes the component as an input and the trace succeeds, or the lookup fails and nothing changes |
| Tracer.ReadJunction | TranslateCircuitMap/Program.cs:182-185 | the junction view holds the side verdict of x+1 as `left`, that of x-1 as `right`, the bottom verdict of the cell above, and the recorded leg; reading fails iff a verdict fails |
| Tracer.CornerExit | TranslateCircuitMap/Program.cs:164-178 | a corner's exit column is x+d when `CornerTurn` of the verdicts of x+1 and x-1 gives the turn d, none when the verdicts are equal; reading fails iff a verdict fails |
| Tracer.CornerNext | TranslateCircuitMap/Program.cs:160-179 | a corner entered from its row leads up to (x, y-1); otherwise to the exit column `CornerExit` picks in the same row, or nowhere when the sides look alike, failing iff a verdict fails |
| Tracer.NextCell | TranslateCircuitMap/Program.cs:155-179 | a wire or crossover leads straight on to (2x-sourceX, 2y-sourceY); a corner leads where `CornerNext` says |
| Tracer.StepOutcome | TranslateCircuitMap/Program.cs:155-274 | a step decides the walk exactly when its next cell, with fuel left, ends the walk, or when it fails or has no next cell or no fuel; the cells and counter then stay as they were, and a failure changes nothing |
| Tracer.TraceJunction | TranslateCircuitMap/Program.cs:181-249 | a failing read fails unchanged; an unresolved junction yields no propagation and no change; otherwise every leg that propagated is one the visit enters, no more legs propagated than are entered, and the junction propagates iff at least the expected number of legs did; an entered leg without fuel, or into a cell that ends the walk where landing fails (unreadable, empty, lever, or a gate, lamp or NOT not found exactly once), fails the visit; on success an entered leg into a cell where landing succeeds (a clamp, or a gate, lamp or NOT found once) is among the legs, and every leg among them into a wire-like cell has clamped it |
| Tracer.LegSet | TranslateCircuitMap/Program.cs:211-238 | the legs named by three flags, and their number is the number of flags set |
| Tracer.LegsBounded | TranslateCircuitMap/Program.cs:239-243 | legs that were all entered number at most the entered count, and a count reaches the expected number iff the set of legs does |
| Tracer.LegHeldStays | TranslateCircuitMap/Map.cs:107-124 | a leg cell once clamped stays clamped while the grid evolves (a crossover turned wire may only become a clamp) |
| Tracer.LegClamped | TranslateCircuitMap/Program.cs:212-219 | a leg into a cell that was wire-like when the visit began and that propagated has clamped that cell, whether the earlier legs had clamped it already or not |
| Tracer.LegsSettled | TranslateCircuitMap/Program.cs:209-244 | from each leg's outcome as landing in its cell decides it, the legs that propagated are entered legs, no more than are entered, the visit propagates iff they reach the expected count, and each leg keeps the leg rule |
| Tracer.TraceLegs | TranslateCircuitMap/Program.cs:209-244 | every leg that propagated is one the visit enters, no more legs propagated than are entered, and the junction propagates iff at least the expected number of legs did; for each of up, right and left, an entered leg without fuel or into a cell where landing fails fails the visit, and on success an entered leg into a cell where landing succeeds is among the legs; every leg that propagated into a wire-like cell has clamped it; the map only evolves |
| Tracer.TraceEachLeg | TranslateCircuitMap/Program.cs:211-238 | the legs are traced up, right, left, and a failing leg ends the visit; on success each leg's result agrees with its cell as the visit found it (not entered: no propagation; no fuel: exhausted; a cell that ends the walk: the outcome of landing there, so a clamp or a gate, lamp or NOT found once propagates), and each leg reported as propagated into a wire-like cell has clamped it |
| Tracer.LegsHeldStay | TranslateCircuitMap/Program.cs:211-238 | the up and right legs that propagated stay clamped while the later legs are traced |
| Tracer.TraceLeg | TranslateCircuitMap/Program.cs:212-220 | a leg not entered is not traced and changes nothing; an entered leg without fuel fails unchanged; an entered leg into a cell that ends the walk has the outcome of landing there; a leg that propagated was entered, is recorded as the junction's direction and, into a wire-like cell, has clamped it; the map only evolves |
| Worker.Pending | TranslateCircuitMap/Program.cs:291 | the snapshot holds exactly the valid, unprocessed components, in table order |
| Worker.MarkKeepsGrowth | TranslateCircuitMap/Program.cs:293 | setting a component's processed flag keeps the table well formed and growing |
| Worker.StartOutcome | TranslateCircuitMap/Program.cs:291-294 | a trace that lands on its start cell fails when that cell is unreadable, empty or a lever, propagates or fails the lookup when it is a clamp, gate, lamp or NOT, and propagates when the start succeeds at once |
| Worker.StartSucceedsStays | TranslateCircuitMap/Program.cs:291-294 | a start that succeeds at once keeps doing so while the map evolves and the table grows |
| Worker.SucceedsAtOnce | TranslateCircuitMap/Program.cs:291-294 | a trace whose start succeeded at once when the sweep began succeeds when it runs later in the sweep |
| Worker.TraceOutput | TranslateCircuitMap/Program.cs:293 | tracing from the cell above a component fails when that cell is unreadable, empty or a lever, and succeeds with propagation (or fails the gate lookup) when it is a clamp, gate, lamp or NOT, succeeding when the start succeeds at once; it keeps the table well formed and growing, changes no flag, only degrades cells and never lowers the counter |
| Worker.StartKept | TranslateCircuitMap/Program.cs:291-294 | a start cell that blocks or ends a trace looks the same at any later point of the sweep |
| Worker.SweepStep | TranslateCircuitMap/Program.cs:291-294 | tracing one more snapshot component and recording the outcome in its flag extends the completed part of the sweep |
| Worker.Sweep | TranslateCircuitMap/Program.cs:291-294 | a completed sweep met no unreadable, empty or lever start cell among the snapshot, and marked processed every snapshot component whose start cell is a clamp, gate, lamp or NOT; a sweep in which every snapshot start succeeds at once completes; a sweep never fails as stuck; only snapshot flags change, the table grows, cells only degrade and the counter never goes down |
| Worker.Resolve | TranslateCircuitMap/Program.cs:287-305 | success means every component is valid; the counter never goes down; after n completed sweeps the counter is at least n and, past the first sweep, at least one higher per sweep; a stuck loop before any sweep completed has a zero counter; an incomplete table needs at least one sweep; a table valid from the start succeeds with no sweep and the map unchanged; a sweep budget of zero on an incomplete table is exhausted |
| Worker.DrainExpression | TranslateCircuitMap/Program.cs:308-309 | the drain's formula mentions only source variables; it fails with a lookup error iff there is not exactly one drain; on a fully valid table it never meets an unset input |
| Worker.DrainIsCircuit | TranslateCircuitMap/Program.cs:308-309 | the drain's formula evaluates, under any lever setting, to the value the circuit carries to the lamp |
| Worker.DrainDependsOnLevers | TranslateCircuitMap/Program.cs:308-315 | lever settings that agree on every source variable give the drain's formula the same value |
| Worker.GrowsKeepsSourceVars | TranslateCircuitMap/Program.cs:289-305 | the sweeps never add, remove or rename a source variable |
| Worker.ScanVarsAreLeverNames | TranslateCircuitMap/Map.cs:100 | every variable of a scanned table is `SourceName(j)` for some lever number j from 1 to the number of levers |
| Worker.Translate | TranslateCircuitMap/Program.cs:283-309 | a frame that fails to scan fails with the scan's error; a formula is produced only for a frame that scans, and it is the drain's formula of a fully valid, well-formed table grown from the scanned one; its variables are lever names S001 to Snnn, n being the number of levers |

## Left out

- The Z3 solver, the satisfiability check and the printed `CTF{...}` line
  (Program.cs:307-316): the solver is foreign code. The model stops at the
  drain's formula. `Naming.SourceNamesOrdered` states the ordering the output
  relies on.
- Loading and saving PNG files, the `Context` object, the worker thread and
  its 256 MB stack, and `Main` (Program.cs:319-324, Map.cs:45-60): I/O and
  threads. The frame is a parameter.
- The recursion depth of the tracer and of `BuildExpression`, and the
  number of sweeps: the source leaves them unbounded. The model bounds
  them with `fuel` and `sweeps`, and hitting a bound is `Err(Exhausted)`,
  an outcome the source does not have.
- The numeric values of `ClampDirection`: its declaration is not part of
  this model. `HasFlag` is modelled as for distinct single-bit flags.
- Exception types: each becomes an `Error` value. What was written to the
  map before an exception is kept, as in the source, but callers stop at the
  error.
- Tracer.TraceComponent: through wire-like cells, the contract states
  one step of the walk: the outcome and the new map when the next cell
  ends the walk, the step without fuel, and a stalled junction. A
  junction's leg rules are stated by `TraceJunction`. It does not state
  where a longer walk ends or which further cells it clamps.
  Stating that would need a second, whole-grid definition of the walk over
  a grid the walk itself changes. The walk's parts state what each step
  does instead.
- Tracer.TraceLegs: whether an entered leg into a wire-like cell
  propagates is the outcome of a longer walk and is not stated (see
  `TraceComponent`). Only its consequence is: such a leg, when it
  propagated, has clamped its cell.
- Tracer.TraceJunction: states its legs as `TraceLegs` does, with the same
  gap.
- Worker.Sweep: states the flag set by a trace only where the start cell
  ends the trace at once. For components whose trace walks along wires,
  it states only that the flag is one of the snapshot's. It promises
  completion only when every start succeeds at once; a longer walk's
  failure is not stated (see `TraceComponent`).
- Worker.Resolve: states the stuck test (Program.cs:296-304) through its
  consequences: after the first, every completed sweep raised the counter,
  and a loop stuck before any sweep completed has a zero counter. That a
  loop stuck after a later sweep clamped nothing in that sweep is not
  stated. It does not state which error a stopped loop returns. A failing
  trace can fail with any error, and the tracer states its errors for the
  first step only.
- Worker.Translate: does not state which error a failing resolve
  returns, for the same reason. That a resolved table never meets an
  unset input is stated by `Worker.DrainExpression` on its own.
- `SaveStateAsPng` and the commented-out iteration counter in
  Program.cs:288 and Program.cs:303: output only, no behaviour.
