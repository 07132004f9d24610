/**
 * `BitArray`: a fixed-length array of booleans, all false at construction, whose cells
 * are only ever set. Python stores it in a numpy boolean array; here it is an `array<bool>`.
 */
module BitArrays {
  import opened Wrappers
  import opened Items

  /** The number of true cells: numpy's `arr.sum()` on a boolean array. */
  function CountSet(s: seq<bool>): (n: nat)
    ensures n <= |s|
    ensures n == 0 <==> forall i | 0 <= i < |s| :: !s[i]
  {
    if s == [] then 0 else (if s[0] then 1 else 0) + CountSet(s[1..])
  }

  /** Setting one cell raises the count by one if the cell was clear, and by nothing otherwise. */
  lemma {:induction false} CountSetFill(s: seq<bool>, i: nat)
    requires i < |s|
    ensures CountSet(s[i := true]) == CountSet(s) + (if s[i] then 0 else 1)
  {
    if i == 0 {
      assert s[i := true][1..] == s[1..];
    } else {
      assert s[i := true][1..] == s[1..][i - 1 := true];
      CountSetFill(s[1..], i - 1);
    }
  }

  /** Every cell set in `s` is set in `t`: `t` arises from `s` by setting bits only. */
  predicate Below(s: seq<bool>, t: seq<bool>) {
    |s| == |t| && forall i | 0 <= i < |s| :: s[i] ==> t[i]
  }

  /** Setting bits never lowers the count. */
  lemma {:induction false} CountSetMonotone(s: seq<bool>, t: seq<bool>)
    requires Below(s, t)
    ensures CountSet(s) <= CountSet(t)
  {
    if s != [] {
      assert Below(s[1..], t[1..]);
      CountSetMonotone(s[1..], t[1..]);
    }
  }

  /** Numpy's reading of an index into `size` cells: a negative index counts from the end. */
  function NumpyIndex(index: int, size: nat): (r: nat)
    requires -(size as int) <= index < size
    ensures r < size
    ensures r % size == index % size
  {
    if index < 0 then index + size else index
  }

  class BitArray {
    const size: nat
    const arr: array<bool>

    /** The object invariant: a positive size, which the array has. */
    ghost predicate Valid() {
      0 < size && arr.Length == size
    }

    constructor (size: nat)
      requires 0 < size
      ensures Valid() && this.size == size && fresh(arr)
      ensures Bits() == seq(size, _ => false)
    {
      this.size := size;
      arr := new bool[size](_ => false);
    }

    /** The cells in index order, as `__iter__` yields them. */
    function Bits(): (s: seq<bool>)
      reads arr
      ensures |s| == arr.Length
      ensures forall i | 0 <= i < arr.Length :: s[i] == arr[i]
    {
      arr[..]
    }

    /** `__getitem__`: the cell at `index`, counted from the end when `index` is negative. */
    function Get(index: int): (b: bool)
      reads arr
      requires Valid() && -(size as int) <= index < size
      ensures 0 <= index ==> b == Bits()[index]
      ensures index < 0 ==> b == Bits()[size + index]
    {
      arr[NumpyIndex(index, size)]
    }

    /** `fill`: sets one cell, leaves the others as they were, never lowers the count. */
    method Fill(index: int)
      requires Valid() && -(size as int) <= index < size
      modifies arr
      ensures Bits() == old(Bits())[NumpyIndex(index, size) := true]
      ensures CountSet(Bits()) == old(CountSet(Bits())) + (if old(Get(index)) then 0 else 1)
    {
      var i := NumpyIndex(index, size);
      arr[i] := true;
      CountSetFill(old(arr[..]), i);
    }

    /** `__len__`: the number of set cells. */
    function Len(): (n: nat)
      reads arr
      requires Valid()
      ensures n <= size
      ensures n == 0 <==> forall i | 0 <= i < size :: !arr[i]
    {
      CountSet(arr[..])
    }
  }

  /** `BitArray(size)`: a ValueError for a non-positive size, otherwise `size` clear cells. */
  method NewBitArray(size: int) returns (r: Result<BitArray, Error>)
    ensures size <= 0 ==> r == Failure(ValueError(SizeMessage))
    ensures 0 < size ==> r.Success? && fresh(r.value) && fresh(r.value.arr)
    ensures 0 < size ==> r.value.Valid() && r.value.size == size
    ensures 0 < size ==> r.value.Bits() == seq(size, _ => false) && r.value.Len() == 0
  {
    if !(size > 0) {
      return Failure(ValueError(SizeMessage));
    }
    var b := new BitArray(size);
    r := Success(b);
  }
}
