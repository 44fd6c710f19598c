/** Searching the price array of a side: the scalar loop and the vectorised loop find the same first index. */
module LevelSearch {

  /** r is the first index of x in s, or -1 when there is none. */
  ghost predicate IsFirst(s: seq<int>, x: int, r: int) {
    if r < 0 then r == -1 && x !in s
    else r < |s| && s[r] == x && forall j :: 0 <= j < r ==> s[j] != x
  }

  method ScalarSearch(prices: array<int>, count: nat, target: int) returns (r: int)
    requires count <= prices.Length
    ensures IsFirst(prices[..count], target, r)
  {
    for i := 0 to count
      invariant forall j :: 0 <= j < i ==> prices[j] != target
    {
      if prices[i] == target {
        return i;
      }
    }
    return -1;
  }

  // ----- the vector instructions

  /** Compare four 64-bit lanes for equality: each of the 32 result bytes is all ones or all zeros. */
  function CompareLanes(chunk: seq<int>, target: int): (bytes: seq<nat>)
    requires |chunk| == 4
    ensures |bytes| == 32
  {
    seq(32, b requires 0 <= b < 32 => if chunk[b / 8] == target then 0xFF else 0)
  }

  /** Collect the top bit of every byte; byte 0 gives the least significant bit. */
  function MoveMask(bytes: seq<nat>): nat {
    if bytes == [] then 0 else (if bytes[0] >= 0x80 then 1 else 0) + 2 * MoveMask(bytes[1..])
  }

  function TrailingZeros(m: nat): nat
    requires m > 0
  {
    if m % 2 == 1 then 0 else 1 + TrailingZeros(m / 2)
  }

  ghost predicate FirstHigh(bytes: seq<nat>, k: nat) {
    k < |bytes| && bytes[k] >= 0x80 && forall j :: 0 <= j < k ==> bytes[j] < 0x80
  }

  /** The mask is zero exactly when no byte is high; otherwise its trailing zeros count the bytes before the first. */
  lemma {:induction false} MaskFindsFirst(bytes: seq<nat>)
    ensures MoveMask(bytes) == 0 <==> forall j :: 0 <= j < |bytes| ==> bytes[j] < 0x80
    ensures MoveMask(bytes) > 0 ==> FirstHigh(bytes, TrailingZeros(MoveMask(bytes)))
  {
    if bytes != [] {
      MaskFindsFirst(bytes[1..]);
      assert forall j :: 1 <= j < |bytes| ==> bytes[j] == bytes[1..][j - 1];
      assert forall j :: 0 <= j < |bytes[1..]| ==> bytes[1..][j] == bytes[j + 1];
    }
  }

  /** Trailing zeros of the byte mask, divided by eight, is the first equal lane. */
  lemma LaneOfMask(chunk: seq<int>, target: int)
    requires |chunk| == 4
    ensures var m := MoveMask(CompareLanes(chunk, target));
            IsFirst(chunk, target, if m == 0 then -1 else TrailingZeros(m) / 8)
  {
    var bytes := CompareLanes(chunk, target);
    MaskFindsFirst(bytes);
    forall lane | 0 <= lane < 4
      ensures bytes[8 * lane] >= 0x80 <==> chunk[lane] == target
    {
      assert 8 * lane / 8 == lane;
    }
  }

  method VectorSearch(prices: array<int>, count: nat, target: int) returns (r: int)
    requires count <= prices.Length
    ensures IsFirst(prices[..count], target, r)
  {
    var i := 0;
    while i + 4 <= count
      invariant 0 <= i <= count
      invariant forall j :: 0 <= j < i ==> prices[j] != target
    {
      var chunk := prices[i..i + 4];
      var mask := MoveMask(CompareLanes(chunk, target));
      LaneOfMask(chunk, target);
      assert forall j :: i <= j < i + 4 ==> prices[j] == chunk[j - i];
      if mask != 0 {
        return i + TrailingZeros(mask) / 8;
      }
      i := i + 4;
    }
    while i < count
      invariant 0 <= i <= count
      invariant forall j :: 0 <= j < i ==> prices[j] != target
    {
      if prices[i] == target {
        return i;
      }
      i := i + 1;
    }
    return -1;
  }

  /** A first index is unique, so the two searches agree for every array, count and target. */
  lemma FirstIsUnique(s: seq<int>, x: int, r: int, r': int)
    requires IsFirst(s, x, r) && IsFirst(s, x, r')
    ensures r == r'
  {
  }
}
