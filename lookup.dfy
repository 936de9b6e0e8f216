/** The two queries the translator runs over its component list:
    `Where(...)` (all matches, in list order) and `Single(...)` (the one
    match, failing on none or several). */
module Lookup {
  import opened Wrappers
  import opened Components
  import opened ComponentEvolution

  /** The indices of the components that satisfy p, in increasing order. */
  function IndicesWhere(cs: seq<Component>, p: Component -> bool): (r: seq<nat>)
    ensures forall k :: 0 <= k < |r| ==> r[k] < |cs| && p(cs[r[k]])
    ensures forall i :: 0 <= i < |cs| && p(cs[i]) ==> i in r
    ensures forall k, l :: 0 <= k < l < |r| ==> r[k] < r[l]
    decreases |cs|
  {
    if cs == [] then []
    else
      var n := |cs| - 1;
      IndicesWhere(cs[..n], p) + (if p(cs[n]) then [n] else [])
  }

  /** `Single(p)`: the index of the only component satisfying p. */
  function SingleIndex(cs: seq<Component>, p: Component -> bool): (r: Result<nat>)
    ensures r.Ok? ==> r.value < |cs| && p(cs[r.value])
    ensures r.Ok? ==> forall j :: 0 <= j < |cs| && j != r.value ==> !p(cs[j])
    ensures r.Err? ==> r.error == NotUnique
    ensures r.Err? ==> (forall j :: 0 <= j < |cs| ==> !p(cs[j]))
                       || (exists j, k :: 0 <= j < k < |cs| && p(cs[j]) && p(cs[k]))
  {
    var matches := IndicesWhere(cs, p);
    if |matches| == 1 then Ok(matches[0])
    else if |matches| == 0 then Err(NotUnique)
    else
      assert matches[0] < matches[1];
      Err(NotUnique)
  }

  /** The variants `OfType<...>()` can ask for. */
  datatype GateType = SingleInput | MultiInput

  predicate HasType(c: Component, g: GateType) {
    match g
    case SingleInput => c.kind.SingleInputGate?
    case MultiInput => c.kind.MultiInputGate?
  }

  /** `OfType<g>().Single(e => e.X == x && e.Y == y)`: the index of the
      only component of kind g at cell (x, y); with none, or with two or
      more, the lookup fails. */
  function GateAt(cs: seq<Component>, g: GateType, x: int, y: int): (r: Result<nat>)
    ensures r.Ok? ==> r.value < |cs| && HasType(cs[r.value], g) && cs[r.value].x == x && cs[r.value].y == y
    ensures r.Ok? ==> forall j :: 0 <= j < |cs| && HasType(cs[j], g) && cs[j].x == x && cs[j].y == y ==> j == r.value
    ensures r.Err? ==> r.error == NotUnique
    ensures r.Err? ==>
              (forall j :: 0 <= j < |cs| ==> !(HasType(cs[j], g) && cs[j].x == x && cs[j].y == y)) ||
              (exists j, k :: 0 <= j < k < |cs| && HasType(cs[j], g) && cs[j].x == x && cs[j].y == y &&
                                                   HasType(cs[k], g) && cs[k].x == x && cs[k].y == y)
  {
    SingleIndex(cs, c => HasType(c, g) && c.x == x && c.y == y)
  }

  /** Two tables whose components agree on p, position by position, have
      the same matches. */
  lemma {:induction false} IndicesWhereAgree(c0: seq<Component>, c1: seq<Component>, p: Component -> bool)
    requires |c0| == |c1| && forall i :: 0 <= i < |c0| ==> p(c0[i]) == p(c1[i])
    ensures IndicesWhere(c0, p) == IndicesWhere(c1, p)
    decreases |c0|
  {
    if c0 != [] {
      var n := |c0| - 1;
      IndicesWhereAgree(c0[..n], c1[..n], p);
    }
  }

  /** Rewiring inputs never changes which gate a lookup by cell finds. */
  lemma GateAtStable(c0: seq<Component>, c1: seq<Component>, g: GateType, x: int, y: int)
    requires TableGrows(c0, c1)
    ensures GateAt(c0, g, x, y) == GateAt(c1, g, x, y)
  {
    var p := c => HasType(c, g) && c.x == x && c.y == y;
    forall i | 0 <= i < |c0|
      ensures p(c0[i]) == p(c1[i])
    {
      assert Grows(c0[i], c1[i]);
    }
    IndicesWhereAgree(c0, c1, p);
  }
}
