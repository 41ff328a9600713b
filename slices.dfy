/**
 * `Globe::Slice`: a view `[first, last)` into a list that it references.
 * The list itself is not stored; each query takes the list's current size,
 * as `begin()`/`end()` read it through the reference.
 */
module Slices {
  import opened Machine

  datatype Slice = Slice(first: nat, last: nat)
  {
    /** Offset of `begin()`: never past `last`. */
    function Begin(): (b: nat)
      ensures b <= first && b <= last
      ensures b == first || b == last
    {
      if first < last then first else last
    }

    /** Offset of `end()`: `last`, clipped to the list's current end. */
    function End(size: nat): (e: nat)
      ensures e <= size && e <= last
      ensures e == size || e == last
    {
      if last < size then last else size
    }

    /** `size()`: `last - first` as `size_t`, so a reversed slice wraps. */
    function Size(): (n: SizeT)
      ensures first <= last < first + SizeTLimit ==> n == last - first
    {
      ToSizeT(last - first)
    }
  }

  /** `Slice(list, first, last)` / `slice(list, first, last)`: a zero `last` means "to the end". */
  function MakeSlice(size: nat, first: nat, last: nat := 0): (s: Slice)
    ensures s.first == first
    ensures last == 0 ==> s.last == size
    ensures last != 0 ==> s.last == last
  {
    Slice(first, if last != 0 then last else size)
  }

  /**
   * `slice(list, bounds)`: the pair overload forwards to the two-offset one,
   * so in-bounds offsets make it iterate from `bounds.0` to `bounds.1`, or to
   * the end when `bounds.1` is 0.
   */
  function SliceOf(size: nat, bounds: (nat, nat)): (s: Slice)
    ensures s == MakeSlice(size, bounds.0, bounds.1)
    ensures bounds.1 != 0 && bounds.0 <= bounds.1 <= size ==> s.Begin() == bounds.0 && s.End(size) == bounds.1
    ensures bounds.1 == 0 && bounds.0 <= size ==> s.Begin() == bounds.0 && s.End(size) == size
  {
    MakeSlice(size, bounds.0, bounds.1)
  }

  /** The elements a range-`for` over the slice visits. */
  function Elements<T>(list: seq<T>, s: Slice): (r: seq<T>)
    requires s.Begin() <= s.End(|list|)
    ensures |r| == s.End(|list|) - s.Begin()
    ensures forall i :: 0 <= i < |r| ==> r[i] == list[s.Begin() + i]
  {
    list[s.Begin()..s.End(|list|)]
  }

  /**
   * A slice made with in-bounds offsets covers exactly `list[first..last]`,
   * a zero `last` covers the rest of the list, and `size()` counts what it covers.
   */
  lemma MakeSliceCovers<T>(list: seq<T>, first: nat, last: nat)
    requires first <= |list| < SizeTLimit
    requires last == 0 || first <= last <= |list|
    ensures var s := MakeSlice(|list|, first, last);
      var stop := if last == 0 then |list| else last;
      && s.Begin() <= s.End(|list|)
      && Elements(list, s) == list[first..stop]
      && s.Size() == stop - first
  {
  }
}
