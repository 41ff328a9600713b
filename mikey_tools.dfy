/**
 * `mhy::RangeT`: an immutable begin/end pair with a size, and the two
 * `range` factories. The element type of the source is an iterator or
 * pointer; here it is an integer position, so `a + count` and `last - first`
 * are the pointer arithmetic of the source.
 */
module MikeyTools {
  import opened Machine

  /** Fields are set once by a constructor and only read afterwards. */
  datatype Range = Range(first: int, last: int)
  {
    function Begin(): int
    {
      first
    }

    function End(): int
    {
      last
    }

    /** `size()`: `last - first` as `size_t`, exact whenever the range is not reversed. */
    function Size(): (n: SizeT)
      ensures first <= last < first + SizeTLimit ==> n == last - first
      ensures last < first ==> n == SizeTLimit - (first - last) || first - last >= SizeTLimit
    {
      ToSizeT(last - first)
    }
  }

  /** `RangeT(a, b)`. */
  function FromBounds(a: int, b: int): (r: Range)
    ensures r.Begin() == a && r.End() == b
  {
    Range(a, b)
  }

  /** `RangeT(a, count)`: the end lies `count` past the beginning. */
  function FromCount(a: int, count: SizeT): (r: Range)
    ensures r.Begin() == a && r.End() == a + count
    ensures r.Size() == count
  {
    Range(a, a + count)
  }

  /** `range(first, count)`: a range of exactly `count` elements. */
  function RangeCount(first: int, count: SizeT): (r: Range)
    ensures r == FromCount(first, count)
    ensures r.Begin() == first && r.Size() == count
  {
    FromCount(first, count)
  }

  /** `range(first, last)`: forwards to the two-bound constructor. */
  function RangeBounds(first: int, last: int): (r: Range)
    ensures r == FromBounds(first, last)
    ensures first <= last < first + SizeTLimit ==> r.Size() == last - first
  {
    FromBounds(first, last)
  }

  /** Building from a count and building from the matching end agree. */
  lemma CountAndBoundsAgree(first: int, count: SizeT)
    ensures RangeCount(first, count) == RangeBounds(first, first + count)
    ensures RangeBounds(first, first + count).Size() == count
  {
  }
}
