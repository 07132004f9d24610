/**
 * `BloomFilter`: one `BitArray` of `bits` cells and `k` seeded hash codes per item.
 * The float formulas that derive `bits` and `k` from the capacity and the target
 * false-positive probability are outside the model: the two sizes are inputs.
 */
module BloomFilters {
  import opened Wrappers
  import opened Items
  import opened BitArrays
  import opened BloomSpec

  class BloomFilter {
    const capacity: int
    const falsePositiveProb: real
    const bits: nat
    const kHashFunctions: nat
    const hash: (Item, nat) -> Int32
    const bitArr: BitArray

    /** The object invariant: the storage has `bits` cells, and both sizes are positive. */
    ghost predicate Valid() {
      bitArr.Valid() && bitArr.size == bits && 0 < bits && 1 <= kHashFunctions
    }

    /** The derived parameters of this filter. */
    function Cfg(): Config {
      Config(bits, kHashFunctions, hash)
    }

    /** `__iter__`: the raw bit sequence of the storage, never the items. */
    function Bits(): (s: seq<bool>)
      reads bitArr.arr
      requires Valid()
      ensures Fits(Cfg(), s)
      ensures s == bitArr.Bits()
    {
      bitArr.Bits()
    }

    /** Allocates the storage; called only after the arguments have been checked. */
    constructor (capacity: int, falsePositiveProb: real, bits: nat, kHashFunctions: nat,
                 hash: (Item, nat) -> Int32)
      requires 0 < bits && 1 <= kHashFunctions
      ensures Valid() && fresh(bitArr) && fresh(bitArr.arr)
      ensures this.capacity == capacity && this.falsePositiveProb == falsePositiveProb
      ensures this.bits == bits && this.kHashFunctions == kHashFunctions && this.hash == hash
      ensures Bits() == seq(bits, _ => false)
    {
      this.capacity := capacity;
      this.falsePositiveProb := falsePositiveProb;
      this.bits := bits;
      this.kHashFunctions := kHashFunctions;
      this.hash := hash;
      bitArr := new BitArray(bits);
    }

    /**
     * `add(item)`: validates, then fills the cell of each hash code in seed order.
     * The new bits are `Added` of the old; a rejected item touches none.
     */
    method Add(item: Item) returns (err: Option<Error>)
      requires Valid()
      modifies bitArr.arr
      ensures Step(Bits(), err) == AddStep(Cfg(), old(Bits()), item)
      ensures old(CountSet(Bits())) <= CountSet(Bits()) <= old(CountSet(Bits())) + kHashFunctions
    {
      err := ValidateItem(item);
      if err.Some? {
        return;
      }
      ghost var before := Bits();
      ghost var ps := Positions(Cfg(), item);
      for seed := 0 to kHashFunctions
        invariant Bits() == seq(bits, i requires 0 <= i < bits => before[i] || i in ps[..seed])
        invariant CountSet(before) <= CountSet(Bits()) <= CountSet(before) + seed
      {
        bitArr.Fill(Slot(hash(item, seed), bits));
        assert ps[..seed + 1] == ps[..seed] + [ps[seed]];
      }
      assert ps[..kHashFunctions] == ps;
    }

    /** `search(item)`: validates, then reports whether every cell of the item is set. */
    function Search(item: Item): (r: Result<bool, Error>)
      reads bitArr.arr
      requires Valid()
      ensures r.Failure? <==> !IsSupported(item)
      ensures r.Failure? ==> r.error == TypeError(ItemMessage)
      ensures r.Success? ==> (r.value <==> Occupied(Cfg(), Bits(), item))
    {
      match ValidateItem(item)
      case Some(e) => Failure(e)
      case None => Success(AllSetFrom(item, 0))
    }

    /** `all(...)` over the cells of seeds `seed..k-1`, stopping at the first clear one. */
    function AllSetFrom(item: Item, seed: nat): (r: bool)
      reads bitArr.arr
      requires Valid() && seed <= kHashFunctions
      ensures r <==> forall j | seed <= j < kHashFunctions :: Bits()[Positions(Cfg(), item)[j]]
      decreases kHashFunctions - seed
    {
      seed == kHashFunctions
      || (var cell := Slot(hash(item, seed), bits);
          assert cell == Positions(Cfg(), item)[seed];
          bitArr.Get(cell) && AllSetFrom(item, seed + 1))
    }

    /** `contains(item)`: the same answer as `search`. */
    function Contains(item: Item): (r: Result<bool, Error>)
      reads bitArr.arr
      requires Valid()
      ensures r == Success(true) <==> Present(Cfg(), Bits(), item)
      ensures r == Search(item)
    {
      Search(item)
    }

    /**
     * `add_vector(v)`: a non-list is rejected; otherwise `add` for each element in order,
     * stopping at the first error with the earlier elements left added.
     */
    method AddVector(v: Vector) returns (err: Option<Error>)
      requires Valid()
      modifies bitArr.arr
      ensures Step(Bits(), err) == AddVectorStep(Cfg(), old(Bits()), v)
    {
      err := ValidateVector(v);
      if err.Some? {
        return;
      }
      var items := v.elems;
      for i := 0 to |items|
        invariant err.None?
        invariant AddSteps(Cfg(), old(Bits()), items) == AddSteps(Cfg(), Bits(), items[i..])
      {
        assert items[i..][0] == items[i] && items[i..][1..] == items[i + 1..];
        err := Add(items[i]);
        if err.Some? {
          return;
        }
      }
      assert items[|items|..] == [];
    }

    /**
     * `contains_vector(v)`: a non-list is rejected; otherwise `contains` for each element
     * until one is not reported present. True exactly when every element is present; an
     * error exactly when the first element not present is unsupported.
     */
    function ContainsVector(v: Vector): (r: Result<bool, Error>)
      reads bitArr.arr
      requires Valid()
      ensures v.NotList? ==> r == Failure(TypeError(VectorMessage))
      ensures v.List? ==> (r == Success(true) <==> AllPresent(Cfg(), Bits(), v.elems))
      ensures v.List? ==> (r.Failure? <==> exists i :: RaisesAt(Cfg(), Bits(), v.elems, i))
      ensures v.List? && r.Failure? ==> r.error == TypeError(ItemMessage)
    {
      match ValidateVector(v)
      case Some(e) => Failure(e)
      case None => ContainsFrom(v.elems, 0)
    }

    /** The scan of `contains_vector` once elements `0..i-1` have been reported present. */
    function ContainsFrom(items: seq<Item>, i: nat): (r: Result<bool, Error>)
      reads bitArr.arr
      requires Valid() && i <= |items|
      requires forall m | 0 <= m < i :: Present(Cfg(), Bits(), items[m])
      ensures r == Success(true) <==> AllPresent(Cfg(), Bits(), items)
      ensures r.Failure? <==> exists j | i <= j :: RaisesAt(Cfg(), Bits(), items, j)
      ensures r.Failure? ==> r.error == TypeError(ItemMessage)
      decreases |items| - i
    {
      if i == |items| then Success(true)
      else
        match Contains(items[i])
        case Failure(e) => assert RaisesAt(Cfg(), Bits(), items, i); Failure(e)
        case Success(present) => if present then ContainsFrom(items, i + 1) else Success(false)
    }
  }

  /**
   * `BloomFilter(capacity, false_positive_prob)`: the probability is checked first, then
   * the capacity, and storage is allocated only when both pass. `bits` and
   * `kHashFunctions` stand for the derived sizes, which are positive for valid arguments.
   */
  method NewBloomFilter(capacity: int, falsePositiveProb: real := 0.05, bits: int, kHashFunctions: int,
                        hash: (Item, nat) -> Int32)
    returns (r: Result<BloomFilter, Error>)
    requires 0.0 < falsePositiveProb < 1.0 && 0 < capacity ==> 0 < bits && 1 <= kHashFunctions
    ensures !(0.0 < falsePositiveProb < 1.0) ==> r == Failure(ValueError(ProbabilityMessage))
    ensures 0.0 < falsePositiveProb < 1.0 && capacity <= 0 ==> r == Failure(ValueError(CapacityMessage))
    ensures 0.0 < falsePositiveProb < 1.0 && 0 < capacity ==>
      r.Success? && fresh(r.value) && fresh(r.value.bitArr) && fresh(r.value.bitArr.arr)
      && r.value.Valid() && r.value.capacity == capacity && r.value.hash == hash
      && r.value.falsePositiveProb == falsePositiveProb
      && r.value.bits == bits && r.value.kHashFunctions == kHashFunctions
      && r.value.Bits() == seq(bits, _ => false)
  {
    if !(0.0 < falsePositiveProb < 1.0) {
      return Failure(ValueError(ProbabilityMessage));
    }
    if !(capacity > 0) {
      return Failure(ValueError(CapacityMessage));
    }
    var f := new BloomFilter(capacity, falsePositiveProb, bits, kHashFunctions, hash);
    r := Success(f);
  }

  /**
   * The membership test of test.py with the sizes that capacity 1000 and probability
   * 0.001 give: ceil(1000 * ln(1000) / ln(2)^2) = 14378 bits and ceil(log2(1000)) = 10
   * hash functions. Whatever the hash, the added string is reported present.
   */
  method MembershipScenario(hash: (Item, nat) -> Int32) returns (present: bool)
    ensures present
  {
    var made := NewBloomFilter(1000, 0.001, 14378, 10, hash);
    var f := made.value;
    var before := f.Bits();
    var _ := f.Add(Str("Anaplan"));
    AddedOccupies(f.Cfg(), before, Str("Anaplan"));
    var r := f.Contains(Str("Anaplan"));
    present := r == Success(true);
  }

  /** The vector membership test of test.py: a vector added is contained. */
  method VectorScenario(hash: (Item, nat) -> Int32) returns (present: bool)
    ensures present
  {
    var made := NewBloomFilter(1000, 0.001, 14378, 10, hash);
    var f := made.value;
    var v := List([Str("Anaplan"), Int(1), Int(2), Int(3)]);
    var before := f.Bits();
    var err := f.AddVector(v);
    assert err.None? by {
      AddStepsSupported(f.Cfg(), before, v.elems);
    }
    VectorLaw(f.Cfg(), before, v);
    var r := f.ContainsVector(v);
    present := r == Success(true);
  }
}
