/** The components found in the grid: sources (levers), single-input gates
    (NOT gates and the lamp's drain) and two-input gates (AND, OR, XOR).
    The translator's class hierarchy becomes one tagged union; a component
    refers to the component feeding an input by its index in the table. */
module Components {
  import opened Wrappers
  import opened Exprs

  /** The builder of a single-input gate: a NOT gate negates its input, the
      drain passes it through unchanged. */
  datatype UnaryFn = Negation | Identity

  /** The builder of a two-input gate. */
  datatype BinaryFn = Conjunction | Disjunction | ExclusiveOr

  function ApplyUnary(f: UnaryFn, input: Expr): Expr {
    match f
    case Negation => Not(input)
    case Identity => input
  }

  /** A two-input builder takes its inputs as a two-element array, left first. */
  function ApplyBinary(f: BinaryFn, inputs: seq<Expr>): Expr
    requires |inputs| == 2
  {
    match f
    case Conjunction => And(inputs[0], inputs[1])
    case Disjunction => Or(inputs[0], inputs[1])
    case ExclusiveOr => Xor(inputs[0], inputs[1])
  }

  datatype Kind =
    | Source(value: Expr)
    | SingleInputGate(unary: UnaryFn, input: Option<nat>)
    | MultiInputGate(binary: BinaryFn, inputLeft: Option<nat>, inputRight: Option<nat>)

  /** A component: its cell, the sweep's `processed` flag and its variant. */
  datatype Component = Component(x: int, y: int, processed: bool, kind: Kind)

  /** The input slots of a variant, left before right: none for a source,
      one for a single-input gate, two for a two-input gate. */
  function Slots(k: Kind): (r: seq<Option<nat>>)
    ensures |r| == match k case Source(_) => 0 case SingleInputGate(_, _) => 1 case MultiInputGate(_, _, _) => 2
  {
    match k
    case Source(_) => []
    case SingleInputGate(_, input) => [input]
    case MultiInputGate(_, left, right) => [left, right]
  }

  /** A component is valid when every input its variant has is set; a
      source, with no inputs, always is. */
  predicate IsValid(c: Component)
    ensures c.kind.Source? ==> IsValid(c)
  {
    match c.kind
    case Source(_) => true
    case SingleInputGate(_, input) => input.Some?
    case MultiInputGate(_, left, right) => left.Some? && right.Some?
  }

  /** Valid means that no input slot is empty. */
  lemma ValidIffSlotsSet(c: Component)
    ensures IsValid(c) <==> Option.None !in Slots(c.kind)
  {
  }

  predicate AllValid(cs: seq<Component>) {
    forall i :: 0 <= i < |cs| ==> IsValid(cs[i])
  }

  /** The drain is the single-input gate whose builder is the identity. */
  predicate IsDrain(c: Component) {
    c.kind.SingleInputGate? && c.kind.unary == Identity
  }

  function NewSource(x: int, y: int, value: Expr): (c: Component)
    ensures c.x == x && c.y == y && !c.processed
    ensures IsValid(c) && c.kind.Source? && c.kind.value == value
  {
    Component(x, y, false, Source(value))
  }

  function NewSingleInputGate(x: int, y: int, fn: UnaryFn): (c: Component)
    ensures c.x == x && c.y == y && !c.processed
    ensures c.kind.SingleInputGate? && c.kind.unary == fn && !IsValid(c)
  {
    Component(x, y, false, SingleInputGate(fn, None))
  }

  function NewMultiInputGate(x: int, y: int, fn: BinaryFn): (c: Component)
    ensures c.x == x && c.y == y && !c.processed
    ensures c.kind.MultiInputGate? && c.kind.binary == fn && !IsValid(c)
    ensures c.kind.inputLeft.None? && c.kind.inputRight.None?
  {
    Component(x, y, false, MultiInputGate(fn, None, None))
  }

  function NewDrain(x: int, y: int): (c: Component)
    ensures IsDrain(c) && !IsValid(c) && !c.processed && c.x == x && c.y == y
  {
    NewSingleInputGate(x, y, Identity)
  }

  /** Assigning `Input` of a single-input gate: the gate becomes valid and
      nothing else about it changes. */
  function SetInput(c: Component, id: nat): (d: Component)
    requires c.kind.SingleInputGate?
    ensures d.kind.SingleInputGate? && d.kind.input == Some(id) && IsValid(d)
    ensures d.x == c.x && d.y == c.y && d.processed == c.processed && d.kind.unary == c.kind.unary
  {
    c.(kind := c.kind.(input := Some(id)))
  }

  /** Assigning `InputLeft` leaves `InputRight` and the builder alone. */
  function SetInputLeft(c: Component, id: nat): (d: Component)
    requires c.kind.MultiInputGate?
    ensures d.kind.MultiInputGate? && d.kind.inputLeft == Some(id)
    ensures d.kind.inputRight == c.kind.inputRight && d.kind.binary == c.kind.binary
    ensures d.x == c.x && d.y == c.y && d.processed == c.processed
    ensures IsValid(d) <==> c.kind.inputRight.Some?
  {
    c.(kind := c.kind.(inputLeft := Some(id)))
  }

  /** Assigning `InputRight` leaves `InputLeft` and the builder alone. */
  function SetInputRight(c: Component, id: nat): (d: Component)
    requires c.kind.MultiInputGate?
    ensures d.kind.MultiInputGate? && d.kind.inputRight == Some(id)
    ensures d.kind.inputLeft == c.kind.inputLeft && d.kind.binary == c.kind.binary
    ensures d.x == c.x && d.y == c.y && d.processed == c.processed
    ensures IsValid(d) <==> c.kind.inputLeft.Some?
  {
    c.(kind := c.kind.(inputRight := Some(id)))
  }

  predicate RefersWithin(k: Kind, n: nat) {
    match k
    case Source(_) => true
    case SingleInputGate(_, input) => input.Some? ==> input.value < n
    case MultiInputGate(_, left, right) =>
      (left.Some? ==> left.value < n) && (right.Some? ==> right.value < n)
  }

  /** Every input refers to a component of the table. */
  predicate WellFormed(cs: seq<Component>) {
    forall i :: 0 <= i < |cs| ==> RefersWithin(cs[i].kind, |cs|)
  }

  /** The variables of all sources of the table. */
  function SourceVars(cs: seq<Component>): set<string> {
    set i, n | 0 <= i < |cs| && cs[i].kind.Source? && n in Vars(cs[i].kind.value) :: n
  }

  /** The formula a component stands for. A source yields its variable; a
      gate applies its builder to the formulas of its inputs, the left one
      first. An unset input is the translator's null dereference; `fuel`
      bounds the recursion, which the translator leaves unbounded. */
  function BuildExpression(cs: seq<Component>, i: nat, fuel: nat): (r: Result<Expr>)
    requires WellFormed(cs) && i < |cs|
    ensures r.Ok? ==> IsValid(cs[i])
    ensures r.Ok? ==> Vars(r.value) <= SourceVars(cs)
    ensures AllValid(cs) ==> r != Err(NullInput)
    ensures r.Err? ==> r.error == NullInput || r.error == Exhausted
    decreases fuel
  {
    match cs[i].kind
    case Source(v) =>
      assert forall n :: n in Vars(v) ==> n in SourceVars(cs);
      Ok(v)
    case SingleInputGate(f, input) =>
      if input.None? then Err(NullInput)
      else if fuel == 0 then Err(Exhausted)
      else
        var e :- BuildExpression(cs, input.value, fuel - 1);
        Ok(ApplyUnary(f, e))
    case MultiInputGate(f, left, right) =>
      if left.None? then Err(NullInput)
      else if fuel == 0 then Err(Exhausted)
      else
        var a :- BuildExpression(cs, left.value, fuel - 1);
        if right.None? then Err(NullInput)
        else
          var b :- BuildExpression(cs, right.value, fuel - 1);
          Ok(ApplyBinary(f, [a, b]))
  }

  /** What a gate computes from the values of its inputs. */
  function UnaryValue(f: UnaryFn, a: bool): bool {
    match f
    case Negation => !a
    case Identity => a
  }

  function BinaryValue(f: BinaryFn, a: bool, b: bool): bool {
    match f
    case Conjunction => a && b
    case Disjunction => a || b
    case ExclusiveOr => a != b
  }

  /** The value the circuit carries at a component when its sources are set
      by `env`: a reference semantics computed on the table itself, with no
      formula in between. */
  function CircuitValue(cs: seq<Component>, i: nat, env: string -> bool, fuel: nat): Option<bool>
    requires WellFormed(cs) && i < |cs|
    decreases fuel
  {
    match cs[i].kind
    case Source(v) => Some(Eval(v, env))
    case SingleInputGate(f, input) =>
      if input.None? || fuel == 0 then None
      else
        var a := CircuitValue(cs, input.value, env, fuel - 1);
        if a.Some? then Some(UnaryValue(f, a.value)) else None
    case MultiInputGate(f, left, right) =>
      if left.None? || right.None? || fuel == 0 then None
      else
        var a := CircuitValue(cs, left.value, env, fuel - 1);
        var b := CircuitValue(cs, right.value, env, fuel - 1);
        if a.Some? && b.Some? then Some(BinaryValue(f, a.value, b.value)) else None
  }

  /** The built formula is exactly the circuit: it can be built iff the
      circuit has a value, and then the formula evaluates to that value. */
  lemma {:induction false} BuildMatchesCircuit(cs: seq<Component>, i: nat, env: string -> bool, fuel: nat)
    requires WellFormed(cs) && i < |cs|
    ensures BuildExpression(cs, i, fuel).Ok? <==> CircuitValue(cs, i, env, fuel).Some?
    ensures BuildExpression(cs, i, fuel).Ok? ==>
              CircuitValue(cs, i, env, fuel) == Some(Eval(BuildExpression(cs, i, fuel).value, env))
    decreases fuel
  {
    match cs[i].kind
    case Source(v) =>
    case SingleInputGate(f, input) =>
      if input.Some? && fuel > 0 {
        BuildMatchesCircuit(cs, input.value, env, fuel - 1);
      }
    case MultiInputGate(f, left, right) =>
      if left.Some? && right.Some? && fuel > 0 {
        BuildMatchesCircuit(cs, left.value, env, fuel - 1);
        BuildMatchesCircuit(cs, right.value, env, fuel - 1);
      }
  }

  /** More recursion depth never changes a formula that could already be built. */
  lemma {:induction false} BuildFuelMonotone(cs: seq<Component>, i: nat, fuel: nat, more: nat)
    requires WellFormed(cs) && i < |cs| && fuel <= more
    requires BuildExpression(cs, i, fuel).Ok?
    ensures BuildExpression(cs, i, more) == BuildExpression(cs, i, fuel)
    decreases fuel
  {
    match cs[i].kind
    case Source(v) =>
    case SingleInputGate(f, input) =>
      BuildFuelMonotone(cs, input.value, fuel - 1, more - 1);
    case MultiInputGate(f, left, right) =>
      BuildFuelMonotone(cs, left.value, fuel - 1, more - 1);
      BuildFuelMonotone(cs, right.value, fuel - 1, more - 1);
  }
}

module ComponentEvolution {
  import opened Wrappers
  import opened Components

  /** What no operation after extraction changes about a component: its
      cell, its variant, its builder and its source value; and an input,
      once set, stays set (it may be overwritten, never cleared). */
  predicate Grows(a: Component, b: Component) {
    a.x == b.x && a.y == b.y &&
    match a.kind
    case Source(_) => b.kind == a.kind
    case SingleInputGate(f, input) =>
      b.kind.SingleInputGate? && b.kind.unary == f && (input.Some? ==> b.kind.input.Some?)
    case MultiInputGate(f, left, right) =>
      b.kind.MultiInputGate? && b.kind.binary == f &&
      (left.Some? ==> b.kind.inputLeft.Some?) && (right.Some? ==> b.kind.inputRight.Some?)
  }

  predicate TableGrows(c0: seq<Component>, c1: seq<Component>) {
    |c0| == |c1| && forall i :: 0 <= i < |c0| ==> Grows(c0[i], c1[i])
  }

  lemma TableGrowsTransitive(c0: seq<Component>, c1: seq<Component>, c2: seq<Component>)
    requires TableGrows(c0, c1) && TableGrows(c1, c2)
    ensures TableGrows(c0, c2)
  {
  }

  /** Validity is never lost. */
  lemma GrowsKeepsValid(c0: seq<Component>, c1: seq<Component>)
    requires TableGrows(c0, c1)
    ensures forall i :: 0 <= i < |c0| && IsValid(c0[i]) ==> IsValid(c1[i])
  {
  }

  /** A component never moves. */
  lemma GrowsKeepsPlace(c0: seq<Component>, c1: seq<Component>, i: nat)
    requires TableGrows(c0, c1) && i < |c0|
    ensures c1[i].x == c0[i].x && c1[i].y == c0[i].y
  {
    assert Grows(c0[i], c1[i]);
  }

  predicate SlotRewired(a: Option<nat>, b: Option<nat>, comp: nat) {
    b == a || b == Some(comp)
  }

  /** What one trace started at component `comp` may do to a component:
      set an input to `comp`, and nothing else. */
  predicate Rewired(a: Component, b: Component, comp: nat) {
    Grows(a, b) && a.processed == b.processed &&
    match a.kind
    case Source(_) => true
    case SingleInputGate(_, input) => SlotRewired(input, b.kind.input, comp)
    case MultiInputGate(_, left, right) =>
      SlotRewired(left, b.kind.inputLeft, comp) && SlotRewired(right, b.kind.inputRight, comp)
  }

  predicate TableRewired(c0: seq<Component>, c1: seq<Component>, comp: nat) {
    |c0| == |c1| && forall i :: 0 <= i < |c0| ==> Rewired(c0[i], c1[i], comp)
  }

  lemma TableRewiredTransitive(c0: seq<Component>, c1: seq<Component>, c2: seq<Component>, comp: nat)
    requires TableRewired(c0, c1, comp) && TableRewired(c1, c2, comp)
    ensures TableRewired(c0, c2, comp)
  {
  }

  /** A rewiring to a component of the table keeps every reference inside the
      table, and it is a growth. */
  lemma RewiredKeepsWellFormed(c0: seq<Component>, c1: seq<Component>, comp: nat)
    requires TableRewired(c0, c1, comp) && WellFormed(c0) && comp < |c0|
    ensures WellFormed(c1) && TableGrows(c0, c1)
  {
    forall i | 0 <= i < |c1|
      ensures RefersWithin(c1[i].kind, |c1|)
    {
      assert Rewired(c0[i], c1[i], comp);
      assert RefersWithin(c0[i].kind, |c0|);
    }
  }

  /** Setting an input of one gate to `comp` is a rewiring. */
  lemma SetInputRewires(cs: seq<Component>, k: nat, comp: nat)
    requires k < |cs| && cs[k].kind.SingleInputGate?
    ensures TableRewired(cs, cs[k := SetInput(cs[k], comp)], comp)
  {
  }

  lemma SetInputSideRewires(cs: seq<Component>, k: nat, comp: nat, right: bool)
    requires k < |cs| && cs[k].kind.MultiInputGate?
    ensures TableRewired(cs, cs[k := if right then SetInputRight(cs[k], comp) else SetInputLeft(cs[k], comp)], comp)
  {
  }

  lemma RewiredReflexive(cs: seq<Component>, comp: nat)
    ensures TableRewired(cs, cs, comp)
  {
  }
}
