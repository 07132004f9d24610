/**
 * The insertion and query protocol of the Bloom filter, stated on the plain bit sequence.
 * These definitions are the reference the `BloomFilter` class is proved against, and the
 * lemmas below are the filter's guarantees: no false negatives, idempotent and
 * order-independent insertion, and the vector operations as folds of the scalar ones.
 */
module BloomSpec {
  import opened Wrappers
  import opened Items
  import opened BitArrays

  /**
   * The derived parameters of one filter: `bits` cells, `k` hash functions, and the
   * seeded hash primitive (MurmurHash3, 32-bit, signed), which the model takes as given.
   */
  datatype Config = Config(bits: nat, k: nat, hash: (Item, nat) -> Int32)

  /** A filter state `s` for `c`: positive sizes, and `bits` cells. */
  predicate Fits(c: Config, s: seq<bool>) {
    0 < c.bits && 1 <= c.k && |s| == c.bits
  }

  /** The codes the hash generator yields for `item`: one per seed `0..k-1`, in seed order. */
  function HashCodes(c: Config, item: Item): (codes: seq<Int32>)
    ensures |codes| == c.k
    ensures forall seed | 0 <= seed < c.k :: codes[seed] == c.hash(item, seed)
  {
    seq(c.k, seed requires 0 <= seed => c.hash(item, seed))
  }

  /**
   * `hash_code % bits`. Python's `%` rounds the quotient down, so for a positive divisor
   * the result is never negative, as with Dafny's `%`; a negative code lands in range too.
   */
  function Slot(code: int, bits: nat): (r: nat)
    requires 0 < bits
    ensures r < bits
    ensures 0 <= code < bits ==> r == code
    ensures r == code - bits * (code / bits)
  {
    code % bits
  }

  /** The cells `item` is mapped to, one per hash function; each is inside the array. */
  function Positions(c: Config, item: Item): (ps: seq<nat>)
    requires 0 < c.bits
    ensures |ps| == c.k
    ensures forall j | 0 <= j < c.k :: ps[j] < c.bits
  {
    var codes := HashCodes(c, item);
    seq(c.k, j requires 0 <= j < c.k => Slot(codes[j], c.bits))
  }

  /** Every cell `item` is mapped to is set: what `search` reports as "possibly present". */
  predicate Occupied(c: Config, s: seq<bool>, item: Item)
    requires Fits(c, s)
  {
    forall j | 0 <= j < c.k :: s[Positions(c, item)[j]]
  }

  /** The state after a successful `add(item)`: `item`'s cells set, nothing else touched. */
  function Added(c: Config, s: seq<bool>, item: Item): (t: seq<bool>)
    requires Fits(c, s)
    ensures Fits(c, t)
  {
    seq(|s|, i requires 0 <= i < |s| => s[i] || i in Positions(c, item))
  }

  /** The outcome of a call that may raise part-way: the bits afterwards, and the error. */
  datatype Step = Step(bits: seq<bool>, error: Option<Error>)

  /** `add(item)`: validation first, so a rejected item leaves every bit as it was. */
  function AddStep(c: Config, s: seq<bool>, item: Item): (st: Step)
    requires Fits(c, s)
    ensures Fits(c, st.bits) && Below(s, st.bits)
    ensures st.error == ValidateItem(item)
    ensures st.error.Some? ==> st.bits == s
  {
    match ValidateItem(item)
    case Some(e) => Step(s, Some(e))
    case None => Step(Added(c, s, item), None)
  }

  /** `add` applied to each item in order, stopping at the first error with no rollback. */
  function AddSteps(c: Config, s: seq<bool>, items: seq<Item>): (st: Step)
    requires Fits(c, s)
    ensures Fits(c, st.bits) && Below(s, st.bits)
    ensures st.error.Some? ==> st.error == Some(TypeError(ItemMessage))
    decreases |items|
  {
    if items == [] then Step(s, None)
    else
      var first := AddStep(c, s, items[0]);
      if first.error.Some? then first else AddSteps(c, first.bits, items[1..])
  }

  /** `add_vector(v)`: a non-list is rejected before any element is added. */
  function AddVectorStep(c: Config, s: seq<bool>, v: Vector): (st: Step)
    requires Fits(c, s)
    ensures Fits(c, st.bits) && Below(s, st.bits)
    ensures v.NotList? ==> st == Step(s, Some(TypeError(VectorMessage)))
  {
    match ValidateVector(v)
    case Some(e) => Step(s, Some(e))
    case None => AddSteps(c, s, v.elems)
  }

  /** `contains(item)` answers True: the item is supported and all its cells are set. */
  predicate Present(c: Config, s: seq<bool>, item: Item)
    requires Fits(c, s)
  {
    IsSupported(item) && Occupied(c, s, item)
  }

  /** Every item of the list is reported present. */
  predicate AllPresent(c: Config, s: seq<bool>, items: seq<Item>)
    requires Fits(c, s)
  {
    forall i | 0 <= i < |items| :: Present(c, s, items[i])
  }

  /**
   * `contains_vector` raises at item `i`: every earlier item was reported present and
   * item `i` is unsupported. An absent item before it stops the scan without an error.
   */
  predicate RaisesAt(c: Config, s: seq<bool>, items: seq<Item>, i: int)
    requires Fits(c, s)
  {
    0 <= i < |items| && !IsSupported(items[i])
    && forall j | 0 <= j < i :: Present(c, s, items[j])
  }

  /** A call that may change the bits: `add` or `add_vector`. */
  datatype Op = AddOp(item: Item) | AddVectorOp(vector: Vector)

  /**
   * The bits after a run of calls. A call that raises keeps whatever it set before
   * raising, and the next call starts from there.
   */
  function Run(c: Config, s: seq<bool>, ops: seq<Op>): (t: seq<bool>)
    requires Fits(c, s)
    ensures Fits(c, t) && Below(s, t)
    decreases |ops|
  {
    if ops == [] then s
    else
      var st := match ops[0]
        case AddOp(item) => AddStep(c, s, item)
        case AddVectorOp(v) => AddVectorStep(c, s, v);
      Run(c, st.bits, ops[1..])
  }

  // ---------------------------------------------------------------------------------------
  // Guarantees

  /** After `add(x)`, every cell of `x` is set. */
  lemma AddedOccupies(c: Config, s: seq<bool>, x: Item)
    requires Fits(c, s)
    ensures Occupied(c, Added(c, s, x), x)
  {
  }

  /** Setting more bits keeps an occupied item occupied. */
  lemma OccupiedMonotone(c: Config, s: seq<bool>, t: seq<bool>, x: Item)
    requires Fits(c, s) && Fits(c, t) && Below(s, t)
    requires Occupied(c, s, x)
    ensures Occupied(c, t, x)
  {
  }

  /**
   * No false negatives: once `add(x)` has succeeded, `x` stays reported present through
   * any later run of `add` and `add_vector` calls, failing ones included.
   */
  lemma NoFalseNegatives(c: Config, s: seq<bool>, x: Item, ops: seq<Op>)
    requires Fits(c, s) && IsSupported(x)
    ensures Present(c, Run(c, AddStep(c, s, x).bits, ops), x)
  {
  }

  /** `add(x); add(x)` leaves the same bits, and the same outcome, as one `add(x)`. */
  lemma AddIdempotent(c: Config, s: seq<bool>, x: Item)
    requires Fits(c, s)
    ensures AddStep(c, AddStep(c, s, x).bits, x) == AddStep(c, s, x)
  {
  }

  /** The order of two successful adds does not matter. */
  lemma AddCommutes(c: Config, s: seq<bool>, x: Item, y: Item)
    requires Fits(c, s)
    ensures Added(c, Added(c, s, x), y) == Added(c, Added(c, s, y), x)
  {
  }

  /** Two `add` calls, rejected ones included, leave the same bits in either order. */
  lemma AddStepCommutes(c: Config, s: seq<bool>, x: Item, y: Item)
    requires Fits(c, s)
    ensures AddStep(c, AddStep(c, s, x).bits, y).bits == AddStep(c, AddStep(c, s, y).bits, x).bits
  {
    AddCommutes(c, s, x, y);
  }

  /** A successful add changes exactly the cells of the item that were clear. */
  lemma AddedExactly(c: Config, s: seq<bool>, x: Item, i: int)
    requires Fits(c, s) && 0 <= i < |s|
    ensures Added(c, s, x)[i] <==> s[i] || exists j | 0 <= j < c.k :: Positions(c, x)[j] == i
  {
  }

  /** Adding the items of `a + b` is adding those of `a`, then, if none failed, those of `b`. */
  lemma {:induction false} AddStepsAppend(c: Config, s: seq<bool>, a: seq<Item>, b: seq<Item>)
    requires Fits(c, s)
    ensures AddSteps(c, s, a + b)
      == var st := AddSteps(c, s, a);
         if st.error.Some? then st else AddSteps(c, st.bits, b)
    decreases |a|
  {
    if a == [] {
      assert a + b == b;
    } else {
      assert (a + b)[0] == a[0];
      assert (a + b)[1..] == a[1..] + b;
      var first := AddStep(c, s, a[0]);
      if first.error.None? {
        AddStepsAppend(c, first.bits, a[1..], b);
      }
    }
  }

  /** One element: `add_vector([x])` is `add(x)`. */
  lemma AddStepsSingle(c: Config, s: seq<bool>, x: Item)
    requires Fits(c, s)
    ensures AddSteps(c, s, [x]) == AddStep(c, s, x)
  {
  }

  /**
   * No rollback: when item `i` is the first unsupported one, `add_vector` raises its
   * TypeError and keeps everything items `0..i-1` set.
   */
  lemma {:induction false} AddStepsNoRollback(c: Config, s: seq<bool>, items: seq<Item>, i: nat)
    requires Fits(c, s)
    requires i < |items| && !IsSupported(items[i])
    requires forall j | 0 <= j < i :: IsSupported(items[j])
    ensures AddSteps(c, s, items)
      == Step(AddSteps(c, s, items[..i]).bits, Some(TypeError(ItemMessage)))
    decreases i
  {
    if i == 0 {
      assert items[..0] == [];
    } else {
      var first := AddStep(c, s, items[0]);
      assert items[1..][..i - 1] == items[..i][1..];
      AddStepsNoRollback(c, first.bits, items[1..], i - 1);
    }
  }

  /** The fold over a list raises nothing exactly when every element is supported. */
  lemma {:induction false} AddStepsSupported(c: Config, s: seq<bool>, items: seq<Item>)
    requires Fits(c, s)
    ensures AddSteps(c, s, items).error.None? <==> forall i | 0 <= i < |items| :: IsSupported(items[i])
    decreases |items|
  {
    if items != [] {
      var first := AddStep(c, s, items[0]);
      if first.error.None? {
        AddStepsSupported(c, first.bits, items[1..]);
        assert forall i | 1 <= i < |items| :: items[i] == items[1..][i - 1];
      }
    }
  }

  /** An `add_vector` that raises nothing leaves every element of the list present. */
  lemma {:induction false} AddStepsPresent(c: Config, s: seq<bool>, items: seq<Item>)
    requires Fits(c, s)
    requires AddSteps(c, s, items).error.None?
    ensures AllPresent(c, AddSteps(c, s, items).bits, items)
    decreases |items|
  {
    if items != [] {
      var first := AddStep(c, s, items[0]);
      var t := AddSteps(c, s, items).bits;
      AddStepsPresent(c, first.bits, items[1..]);
      AddedOccupies(c, s, items[0]);
      OccupiedMonotone(c, first.bits, t, items[0]);
      forall i | 1 <= i < |items| ensures Present(c, t, items[i]) {
        assert items[i] == items[1..][i - 1];
      }
    }
  }

  /**
   * The vector law: after an `add_vector(v)` that raises nothing, `v` is a list and every
   * element is reported present.
   */
  lemma VectorLaw(c: Config, s: seq<bool>, v: Vector)
    requires Fits(c, s)
    requires AddVectorStep(c, s, v).error.None?
    ensures v.List? && AllPresent(c, AddVectorStep(c, s, v).bits, v.elems)
  {
    AddStepsPresent(c, s, v.elems);
  }

  /** A successful add never lowers the number of set cells. */
  lemma {:induction false} AddedCount(c: Config, s: seq<bool>, x: Item)
    requires Fits(c, s)
    ensures CountSet(s) <= CountSet(Added(c, s, x))
  {
    CountSetMonotone(s, Added(c, s, x));
  }
}
