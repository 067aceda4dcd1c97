/** Timestamp arithmetic of `common/src/mappers.cc` and of the database value traits.

    A `ptime` is its signed number of microseconds from 1970-01-01; calendar text and the
    special values (not-a-date-time, infinities) are not modelled. */
module TimeMapping {

  type Ptime = int

  const EPOCH: Ptime := 0
  const TICKS_PER_SECOND := 1_000_000
  /** 10^9 = 512 * 1953125, so the low 32 bits of a nanosecond count repeat every 2^23 seconds. */
  const PERIOD := 0x80_0000
  /** The inverse of 1953125 modulo 2^23. */
  const UNIT_SECOND := 3_054_701
  /** UNIT_SECOND * 1953125 == 1 + PERIOD * INVERSE_CARRY. */
  const INVERSE_CARRY := 711_228

  /** `/` of C++ on signed operands: the quotient is rounded toward zero. */
  function TruncDiv(a: int, b: int): int
    requires b > 0
  {
    if a >= 0 then a / b else -((-a) / b)
  }

  /** Narrowing a 64-bit count to `int32`: two's complement, modulo 2^32. */
  function Wrap32(x: int): int {
    var low := x % 0x1_0000_0000;
    if low < 0x8000_0000 then low else low - 0x1_0000_0000
  }

  function Abs(t: int): nat {
    if t >= 0 then t else -t
  }

  // ---------- milliseconds ----------

  function PtimeToMillis(t: Ptime): int {
    TruncDiv(t, 1000)
  }

  function MillisToPtime(ms: int): Ptime {
    EPOCH + 1000 * ms
  }

  /** What a time becomes when it is stored as whole milliseconds and read back. */
  function MsTruncate(t: Ptime): Ptime {
    MillisToPtime(PtimeToMillis(t))
  }

  lemma MillisRetraction(ms: int)
    ensures PtimeToMillis(MillisToPtime(ms)) == ms
  {
  }

  /** Storing rounds toward the epoch by less than a millisecond, at most once. */
  lemma MsTruncateTowardEpoch(t: Ptime)
    ensures Abs(t) - 1000 < Abs(MsTruncate(t)) <= Abs(t)
    ensures t >= 0 ==> MsTruncate(t) >= 0
    ensures t <= 0 ==> MsTruncate(t) <= 0
    ensures MsTruncate(MsTruncate(t)) == MsTruncate(t)
    ensures MsTruncate(t) == t <==> t % 1000 == 0
  {
  }

  lemma MillisMonotone(t: Ptime, u: Ptime)
    requires t <= u
    ensures PtimeToMillis(t) <= PtimeToMillis(u)
    ensures MsTruncate(t) <= MsTruncate(u)
  {
  }

  /** Database image to value: a null image decodes to the epoch, any other to the aligned
      time that has exactly that many milliseconds. */
  method SetValue(image: int, isNull: bool) returns (v: Ptime)
    ensures isNull ==> v == EPOCH
    ensures !isNull ==> v % 1000 == 0 && PtimeToMillis(v) == image
  {
    if isNull {
      v := EPOCH;
      return;
    }
    v := MillisToPtime(image);
  }

  /** Value to database image: never null, and the whole milliseconds that lie between the
      epoch and the value. */
  method SetImage(v: Ptime) returns (image: int, isNull: bool)
    ensures !isNull
    ensures 1000 * Abs(image) <= Abs(v) < 1000 * Abs(image) + 1000
    ensures v >= 0 ==> image >= 0
    ensures v <= 0 ==> image <= 0
    ensures MillisToPtime(image) == MsTruncate(v)
  {
    isNull := false;
    image := PtimeToMillis(v);
  }

  // ---------- google.protobuf.Timestamp ----------

  datatype Timestamp = Timestamp(seconds: int, nanos: int)

  /** What `google.protobuf.Timestamp` asks of its nanos field. */
  predicate WellFormed(ts: Timestamp) {
    0 <= ts.nanos <= 999_999_999
  }

  /** The code as written: total seconds, and the total (not the remaining) nanoseconds in 32 bits. */
  function WriteTimestamp(t: Ptime): Timestamp {
    Timestamp(TruncDiv(t, TICKS_PER_SECOND), Wrap32(1000 * t))
  }

  function ReadTimestamp(ts: Timestamp): Ptime {
    EPOCH + TICKS_PER_SECOND * ts.seconds + TruncDiv(ts.nanos, 1000)
  }

  /** The mapping the format intends: floored seconds and the nanoseconds that remain. */
  function Normalised(t: Ptime): Timestamp {
    Timestamp(t / TICKS_PER_SECOND, 1000 * (t % TICKS_PER_SECOND))
  }

  /** A time after one trip through the message, as written. */
  function RoundTrip(t: Ptime): Ptime {
    ReadTimestamp(WriteTimestamp(t))
  }

  /** The 64-bit nanosecond count of `t` does not overflow. */
  predicate CountFits(t: Ptime) {
    -0x8000_0000_0000_0000 <= 1000 * t < 0x8000_0000_0000_0000
  }

  predicate EarlierOrEqual(a: Timestamp, b: Timestamp) {
    a.seconds < b.seconds || (a.seconds == b.seconds && a.nanos <= b.nanos)
  }

  /** Intended mapping: well-formed, lossless on every tick, and order preserving both ways. */
  lemma NormalisedIsExact(t: Ptime, u: Ptime)
    ensures WellFormed(Normalised(t))
    ensures ReadTimestamp(Normalised(t)) == t
    ensures t <= u <==> EarlierOrEqual(Normalised(t), Normalised(u))
  {
  }

  // ---------- exact drift of the code as written ----------

  /** Whole seconds contribute only multiples of 512 to the narrowed field. */
  function SecondResidue(s: int): int {
    1_953_125 * s % PERIOD
  }

  lemma Wrap32Unique(x: int, y: int, k: int)
    requires x == y + 0x1_0000_0000 * k
    ensures Wrap32(x) == Wrap32(y)
    ensures -0x8000_0000 <= y < 0x8000_0000 ==> Wrap32(x) == y
  {
  }

  lemma ResidueOfSecond(s: int) returns (k: int)
    ensures 1_000_000_000 * s == 512 * SecondResidue(s) + 0x1_0000_0000 * k
    ensures 0 <= SecondResidue(s) < PERIOD
  {
    k := 1_953_125 * s / PERIOD;
  }

  lemma ResidueOf(x: int, y: int, q: int)
    requires x == y + PERIOD * q && 0 <= y < PERIOD
    ensures x % PERIOD == y
  {
  }

  /** The residue depends only on the second within its period of 2^23. */
  lemma ResiduePeriodic(s: int, k: int)
    ensures SecondResidue(s + PERIOD * k) == SecondResidue(s)
  {
    var a := 1_953_125 * s / PERIOD;
    assert 1_953_125 * s == SecondResidue(s) + PERIOD * a;
    ResidueOf(1_953_125 * (s + PERIOD * k), SecondResidue(s), a + 1_953_125 * k);
  }

  /** 1953125 is invertible modulo 2^23: its residues determine the second within the period. */
  lemma ResidueInverse(m: int) returns (j: int)
    ensures m == UNIT_SECOND * SecondResidue(m) + PERIOD * j
  {
    var q := 1_953_125 * m / PERIOD;
    assert SecondResidue(m) == 1_953_125 * m - PERIOD * q;
    j := UNIT_SECOND * q - INVERSE_CARRY * m;
    assert UNIT_SECOND * 1_953_125 == 1 + PERIOD * INVERSE_CARRY;
  }

  /** The three residues that matter, solved for the second. */
  lemma ResidueSolved(s: int)
    ensures SecondResidue(s) == 0 <==> s % PERIOD == 0
    ensures SecondResidue(s) == 1 <==> s % PERIOD == UNIT_SECOND
    ensures SecondResidue(s) == PERIOD - 1 <==> s % PERIOD == PERIOD - UNIT_SECOND
  {
    var m := s % PERIOD;
    assert s == m + PERIOD * (s / PERIOD);
    ResiduePeriodic(m, s / PERIOD);
    var j := ResidueInverse(m);
    SolveCongruence(m, SecondResidue(m), j);
    ResiduesOfSolutions();
  }

  lemma SolveCongruence(m: int, r: int, j: int)
    requires 0 <= m < PERIOD && m == UNIT_SECOND * r + PERIOD * j
    ensures r == 0 ==> m == 0
    ensures r == 1 ==> m == UNIT_SECOND
    ensures r == PERIOD - 1 ==> m == PERIOD - UNIT_SECOND
  {
    if r == PERIOD - 1 {
      assert m == PERIOD * (UNIT_SECOND + j) - UNIT_SECOND;
    }
  }

  lemma ResiduesOfSolutions()
    ensures SecondResidue(0) == 0
    ensures SecondResidue(UNIT_SECOND) == 1
    ensures SecondResidue(PERIOD - UNIT_SECOND) == PERIOD - 1
  {
  }

  /** Whole seconds: the shift after a round trip, in terms of the residue alone. */
  lemma WholeSecondDrift(s: nat)
    ensures RoundTrip(TICKS_PER_SECOND * s) - TICKS_PER_SECOND * s == TruncDiv(Wrap32(512 * SecondResidue(s)), 1000)
  {
    var k := ResidueOfSecond(s);
    Wrap32Unique(1000 * (TICKS_PER_SECOND * s), 512 * SecondResidue(s), k);
  }

  /** Whole seconds: the shift has period 2^23 seconds, stays within 2147483 microseconds, and
      vanishes exactly at the residues 0, 1 and -1. */
  lemma WholeSecondDriftShape(s: nat, k: nat)
    ensures RoundTrip(TICKS_PER_SECOND * (s + PERIOD * k)) - TICKS_PER_SECOND * (s + PERIOD * k)
         == RoundTrip(TICKS_PER_SECOND * s) - TICKS_PER_SECOND * s
    ensures -2_147_483 <= RoundTrip(TICKS_PER_SECOND * s) - TICKS_PER_SECOND * s <= 2_147_483
    ensures RoundTrip(TICKS_PER_SECOND * s) == TICKS_PER_SECOND * s
       <==> s % PERIOD in {0, UNIT_SECOND, PERIOD - UNIT_SECOND}
  {
    WholeSecondDrift(s);
    WholeSecondDrift(s + PERIOD * k);
    ResiduePeriodic(s, k);
    ResidueSolved(s);
    var r := ResidueOfSecond(s);
  }

  /** Seconds of a magnitude at which the code as written loses nothing; the third residue
      works only for whole seconds. */
  predicate ExactMagnitude(v: nat) {
    var m := (v / TICKS_PER_SECOND) % PERIOD;
    m == 0 || m == UNIT_SECOND || (m == PERIOD - UNIT_SECOND && v % TICKS_PER_SECOND == 0)
  }

  /** Every time, before and after 1970: the round trip as written is the identity exactly at
      the seconds that `ExactMagnitude` names. */
  lemma RoundTripExactIff(t: Ptime)
    requires CountFits(t)
    ensures RoundTrip(t) == t <==> ExactMagnitude(Abs(t))
  {
    var v := Abs(t);
    var (s, f) := (v / TICKS_PER_SECOND, v % TICKS_PER_SECOND);
    assert v == TICKS_PER_SECOND * s + f;
    var k := ResidueOfSecond(s);
    ResidueSolved(s);
    var r := SecondResidue(s);
    assert 1000 * v == 512 * r + 1000 * f + 0x1_0000_0000 * k;
    if t >= 0 {
      Wrap32Unique(1000 * t, 512 * r + 1000 * f, k);
      NarrowedIsRemainder(r, f);
    } else {
      assert 1000 * t == -(512 * r + 1000 * f) + 0x1_0000_0000 * -k;
      Wrap32Unique(1000 * t, -(512 * r + 1000 * f), -k);
      NarrowedIsRemainderBefore(r, f);
    }
  }

  /** The narrowed field holds the remaining microseconds exactly at three residues. */
  lemma NarrowedIsRemainder(r: int, f: int)
    requires 0 <= r < PERIOD && 0 <= f < TICKS_PER_SECOND
    ensures TruncDiv(Wrap32(512 * r + 1000 * f), 1000) == f <==> r == 0 || r == 1 || (r == PERIOD - 1 && f == 0)
  {
  }

  lemma NarrowedIsRemainderBefore(r: int, f: int)
    requires 0 <= r < PERIOD && 0 <= f < TICKS_PER_SECOND
    ensures TruncDiv(Wrap32(-(512 * r + 1000 * f)), 1000) == -f <==> r == 0 || r == 1 || (r == PERIOD - 1 && f == 0)
  {
  }

  /** The error of the code as written is always within these bounds. */
  lemma RoundTripErrorBounds(t: Ptime)
    requires CountFits(t)
    ensures t >= 0 ==> -3_147_482 <= RoundTrip(t) - t <= 2_147_483
    ensures t <= 0 ==> -2_147_483 <= RoundTrip(t) - t <= 3_147_482
  {
  }

  /** Both bounds are met, so no smaller ones hold. */
  lemma RoundTripErrorBoundsTight()
    ensures RoundTrip(1_139_603_000_000) - 1_139_603_000_000 == 2_147_483
    ensures RoundTrip(1_915_097_999_999) - 1_915_097_999_999 == -3_147_482
  {
    hide Wrap32, RoundTrip;
    Wrap32Unique(1000 * 1_139_603_000_000, 2_147_483_136, 265_334);
    RoundTripOf(1_139_603_000_000, 1_139_603, 0, 2_147_483_136);
    Wrap32Unique(1000 * 1_915_097_999_999, -2_147_483_624, 445_894);
    RoundTripOf(1_915_097_999_999, 1_915_097, 999_999, -2_147_483_624);
  }

  lemma RoundTripOf(t: Ptime, s: nat, f: nat, nanos: int)
    requires t == TICKS_PER_SECOND * s + f && f < TICKS_PER_SECOND && Wrap32(1000 * t) == nanos
    ensures RoundTrip(t) == TICKS_PER_SECOND * s + TruncDiv(nanos, 1000)
  {
    assert TruncDiv(t, TICKS_PER_SECOND) == s;
  }

  /** The code writes the intended message exactly when the whole seconds are a multiple of
      2^23 and no fraction lies before the epoch. */
  lemma WritesNormalisedIff(t: Ptime)
    requires CountFits(t)
    ensures WriteTimestamp(t) == Normalised(t)
       <==> (t / TICKS_PER_SECOND) % PERIOD == 0 && (t >= 0 || t % TICKS_PER_SECOND == 0)
  {
    var (s, f) := (t / TICKS_PER_SECOND, t % TICKS_PER_SECOND);
    assert t == TICKS_PER_SECOND * s + f;
    var k := ResidueOfSecond(s);
    ResidueSolved(s);
    var r := SecondResidue(s);
    assert 1000 * t == 512 * r + 1000 * f + 0x1_0000_0000 * k;
    Wrap32Unique(1000 * t, 512 * r + 1000 * f, k);
  }
}
