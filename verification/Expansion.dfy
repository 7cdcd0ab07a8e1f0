/** Expanding a 32-bit timestamp around a 64-bit time (tsn_gptp/gptpmasterclock.c). */
module Expansion {
  import opened Arith

  const INT32_MAX := 0x7FFF_FFFF
  const INT32_MIN := -0x8000_0000

  /** The 64-bit time as uint64_t shows it. */
  function Low32(ts: int): U32 { ts % TWO32 }

  /** gptpmasterclock_expand_timestamp_ts64, on times that do not overflow. */
  function Expand(timestamp: U32, ts64: int): int {
    var dtime := timestamp - Low32(ts64);
    if dtime > INT32_MAX then ts64 + INT32_MIN + dtime - (INT32_MAX + 1)
    else if dtime < INT32_MIN then ts64 + INT32_MAX + dtime - (INT32_MIN - 1)
    else ts64 + dtime
  }

  /** Half a turn of the 32-bit counter before and after ts64. */
  predicate Near(t: int, ts64: int) { ts64 - TWO31 <= t < ts64 + TWO31 }

  lemma SameResidue(a: int, b: int)
    requires Low32(a) == Low32(b) && -TWO32 < a - b < TWO32
    ensures a == b
  {
    assert a == TWO32 * (a / TWO32) + Low32(a) && b == TWO32 * (b / TWO32) + Low32(b);
  }

  lemma ResidueOfDifference(ts64: int, d: int, timestamp: U32)
    requires d - (timestamp - Low32(ts64)) in {-TWO32, 0, TWO32}
    ensures Low32(ts64 + d) == timestamp
  {
    var k := ts64 / TWO32;
    assert ts64 == TWO32 * k + Low32(ts64);
    var j := if d == timestamp - Low32(ts64) then k else if d > timestamp - Low32(ts64) then k + 1 else k - 1;
    assert ts64 + d == TWO32 * j + timestamp;
  }

  /** The expansion is the one time near ts64 with these lower 32 bits. */
  lemma ExpandIsUnique(timestamp: U32, ts64: int, t: int)
    ensures t == Expand(timestamp, ts64) <==> Low32(t) == timestamp && Near(t, ts64)
  {
    var e := Expand(timestamp, ts64);
    assert Near(e, ts64);
    ResidueOfDifference(ts64, e - ts64, timestamp);
    if Low32(t) == timestamp && Near(t, ts64) {
      SameResidue(t, e);
    }
  }

  /** Cutting a time to 32 bits and expanding it gives it back exactly when it was near. */
  lemma RoundTripIff(t: int, ts64: int)
    ensures Expand(Low32(t), ts64) == t <==> Near(t, ts64)
  {
    ExpandIsUnique(Low32(t), ts64, t);
  }

  /** A later reading of the clock does not change an expansion that is near to both. */
  lemma ExpandIsStable(timestamp: U32, ts64: int, later: int)
    requires Near(Expand(timestamp, ts64), later)
    ensures Expand(timestamp, later) == Expand(timestamp, ts64)
  {
    ExpandIsUnique(timestamp, ts64, Expand(timestamp, ts64));
    ExpandIsUnique(timestamp, later, Expand(timestamp, ts64));
  }
}
