/**
 * Day 3, power consumption (src/3.ts:4-66): per-position counts of '0' and '1'
 * over the diagnostic readings, the gamma and epsilon rates read off those
 * counts, and base-2 numbers.
 */
module StatusReadings {
  import opened Wrappers

  /** `BitCount`: how many readings hold '0' and how many hold '1' at one position. */
  datatype BitCount = BitCount(zero: nat, one: nat)

  predicate IsBit(c: char) { c == '0' || c == '1' }

  predicate IsBinary(s: string) { forall i :: 0 <= i < |s| ==> IsBit(s[i]) }

  predicate AllBinary(input: seq<string>) { forall k :: 0 <= k < |input| ==> IsBinary(input[k]) }

  function Max(a: nat, b: nat): nat { if a < b then b else a }

  /** Length of the longest reading. */
  function MaxLength(input: seq<string>): nat {
    if |input| == 0 then 0 else Max(|input[0]|, MaxLength(input[1..]))
  }

  /** Number of readings that have character c at position i. */
  function Occurrences(input: seq<string>, i: nat, c: char): nat {
    if |input| == 0 then 0
    else (if i < |input[0]| && input[0][i] == c then 1 else 0) + Occurrences(input[1..], i, c)
  }

  /** One more character c counted into an existing entry: '0' raises `zero`, anything else `one`. */
  function Plus(bc: BitCount, c: char): BitCount {
    if c == '0' then bc.(zero := bc.zero + 1) else bc.(one := bc.one + 1)
  }

  /**
   * The body of the inner `forEach` of `getBitCounts` for character b at
   * position idx: a position seen for the first time gets a fresh entry
   * (`zero` is 1 for '0', `one` is 1 for '1'); an existing entry is raised by `Plus`.
   */
  function CountChar(acc: seq<BitCount>, idx: nat, b: char): seq<BitCount>
    requires idx <= |acc|
  {
    if idx < |acc| then acc[idx := Plus(acc[idx], b)]
    else acc + [BitCount(if b == '0' then 1 else 0, if b == '1' then 1 else 0)]
  }

  /** The characters of reading s from position j on, counted into acc. */
  function CountFrom(acc: seq<BitCount>, s: string, j: nat): (r: seq<BitCount>)
    requires j <= |s| && j <= |acc|
    ensures |r| == Max(|acc|, |s|)
    decreases |s| - j
  {
    if j == |s| then acc else CountFrom(CountChar(acc, j, s[j]), s, j + 1)
  }

  /** The readings counted into acc one after the other. */
  function TallyFrom(acc: seq<BitCount>, input: seq<string>): (r: seq<BitCount>)
    ensures |r| == Max(|acc|, MaxLength(input))
    decreases input
  {
    if |input| == 0 then acc else TallyFrom(CountFrom(acc, input[0], 0), input[1..])
  }

  /** The reduce of `getBitCounts`, starting from the empty list. */
  function Tally(input: seq<string>): seq<BitCount> {
    TallyFrom([], input)
  }

  /** `getBitCounts`: the accumulator list is extended with `push` and its entries raised in place. */
  method GetBitCounts(input: seq<string>) returns (counts: seq<BitCount>)
    ensures counts == Tally(input)
  {
    counts := [];
    var k := 0;
    while k < |input|
      invariant 0 <= k <= |input|
      invariant TallyFrom(counts, input[k..]) == Tally(input)
    {
      var binary := input[k];
      ghost var before := counts;
      var idx := 0;
      while idx < |binary|
        invariant 0 <= idx <= |binary| && idx <= |counts|
        invariant CountFrom(counts, binary, idx) == CountFrom(before, binary, 0)
      {
        var b := binary[idx];
        if idx >= |counts| {
          counts := counts + [BitCount(if b == '0' then 1 else 0, if b == '1' then 1 else 0)];
        } else if b == '0' {
          counts := counts[idx := counts[idx].(zero := counts[idx].zero + 1)];
        } else {
          counts := counts[idx := counts[idx].(one := counts[idx].one + 1)];
        }
        idx := idx + 1;
      }
      assert input[k..][1..] == input[k + 1..];
      k := k + 1;
    }
  }

  /** The entry at position i of acc, or an empty count where acc does not reach. */
  function Base(acc: seq<BitCount>, i: nat): BitCount {
    if i < |acc| then acc[i] else BitCount(0, 0)
  }

  /** Counting a binary reading from position j on raises entry i by that reading's character there. */
  lemma {:induction false} CountFromAt(acc: seq<BitCount>, s: string, j: nat, i: nat)
    requires j <= |s| && j <= |acc| && IsBinary(s) && i < Max(|acc|, |s|)
    ensures CountFrom(acc, s, j)[i] == if j <= i < |s| then Plus(Base(acc, i), s[i]) else Base(acc, i)
    decreases |s| - j
  {
    if j < |s| {
      CountFromAt(CountChar(acc, j, s[j]), s, j + 1, i);
    }
  }

  /** Counting binary readings into acc adds, at each position, their zeros and ones there. */
  lemma {:induction false} TallyFromAt(acc: seq<BitCount>, input: seq<string>, i: nat)
    requires AllBinary(input) && i < Max(|acc|, MaxLength(input))
    ensures TallyFrom(acc, input)[i]
         == BitCount(Base(acc, i).zero + Occurrences(input, i, '0'), Base(acc, i).one + Occurrences(input, i, '1'))
    decreases input
  {
    if |input| > 0 {
      var s, rest := input[0], input[1..];
      assert IsBinary(s);
      assert AllBinary(rest) by {
        forall k | 0 <= k < |rest| ensures IsBinary(rest[k]) { assert rest[k] == input[k + 1]; }
      }
      var acc1 := CountFrom(acc, s, 0);
      if i < |acc1| {
        CountFromAt(acc, s, 0, i);
      }
      TallyFromAt(acc1, rest, i);
    }
  }

  /**
   * For binary readings, the list has one entry per position of the longest
   * reading, and entry i counts exactly the readings with '0' and with '1' at i.
   */
  lemma TallyCounts(input: seq<string>)
    requires AllBinary(input)
    ensures |Tally(input)| == MaxLength(input)
    ensures forall i :: 0 <= i < |Tally(input)| ==>
      Tally(input)[i] == BitCount(Occurrences(input, i, '0'), Occurrences(input, i, '1'))
  {
    forall i | 0 <= i < |Tally(input)|
      ensures Tally(input)[i] == BitCount(Occurrences(input, i, '0'), Occurrences(input, i, '1'))
    {
      TallyFromAt([], input, i);
    }
  }

  /** The most common bit per position as `getGammaRate` picks it: '0' only when zeros outnumber ones. */
  function MostCommon(counts: seq<BitCount>): (r: string)
    ensures |r| == |counts| && IsBinary(r)
    ensures forall i :: 0 <= i < |r| ==> (r[i] == '0' ==> counts[i].zero > counts[i].one) && (r[i] == '1' ==> counts[i].one >= counts[i].zero)
  {
    seq(|counts|, i requires 0 <= i < |counts| => if counts[i].zero > counts[i].one then '0' else '1')
  }

  /** The least common bit per position as `getEpsilonRate` picks it: '0' only when zeros are outnumbered. */
  function LeastCommon(counts: seq<BitCount>): (r: string)
    ensures |r| == |counts| && IsBinary(r)
    ensures forall i :: 0 <= i < |r| ==> (r[i] == '0' ==> counts[i].zero < counts[i].one) && (r[i] == '1' ==> counts[i].one <= counts[i].zero)
  {
    seq(|counts|, i requires 0 <= i < |counts| => if counts[i].zero < counts[i].one then '0' else '1')
  }

  /** There is a tie at some position. */
  predicate HasTie(counts: seq<BitCount>) {
    exists i :: 0 <= i < |counts| && counts[i].zero == counts[i].one
  }

  /**
   * Both picks give one bit per position; on a tie both pick '1', and
   * elsewhere the least common bit is the complement of the most common one.
   */
  lemma CommonBits(counts: seq<BitCount>, i: nat)
    requires i < |counts|
    ensures |MostCommon(counts)| == |LeastCommon(counts)| == |counts|
    ensures IsBinary(MostCommon(counts)) && IsBinary(LeastCommon(counts))
    ensures counts[i].zero == counts[i].one ==> MostCommon(counts)[i] == '1' && LeastCommon(counts)[i] == '1'
    ensures counts[i].zero != counts[i].one ==> MostCommon(counts)[i] != LeastCommon(counts)[i]
  {
  }

  function Pow2(n: nat): (p: nat)
    ensures p >= 1
  {
    if n == 0 then 1 else 2 * Pow2(n - 1)
  }

  function BitValue(c: char): nat { if c == '1' then 1 else 0 }

  /** The base-2 value of a binary string, most significant bit first. */
  function BinaryValue(s: string): (v: nat)
    requires IsBinary(s)
    ensures v < Pow2(|s|)
  {
    if |s| == 0 then 0 else 2 * BinaryValue(s[..|s| - 1]) + BitValue(s[|s| - 1])
  }

  /**
   * `bitCountToNumber` and `parseInt(_, 2)` on binary strings: the joined bits
   * read in base 2; the empty string parses to `NaN`, modelled as `None`.
   */
  function BitsToNumber(bits: string): (r: Option<nat>)
    requires IsBinary(bits)
    ensures r == None <==> |bits| == 0
    ensures r.Some? ==> r.value < Pow2(|bits|) && ToBinary(r.value, |bits|) == bits
  {
    if |bits| == 0 then None else BinaryRoundTripString(bits); Some(BinaryValue(bits))
  }

  /** The w low bits of n, most significant first: the inverse of `BinaryValue`. */
  function ToBinary(n: nat, w: nat): (s: string)
    ensures |s| == w && IsBinary(s)
  {
    if w == 0 then [] else ToBinary(n / 2, w - 1) + [if n % 2 == 0 then '0' else '1']
  }

  /** Writing a number below 2^w in w bits and parsing it back gives the number. */
  lemma {:induction false} BinaryRoundTrip(n: nat, w: nat)
    requires n < Pow2(w)
    ensures BinaryValue(ToBinary(n, w)) == n
  {
    if w > 0 {
      var s := ToBinary(n, w);
      assert s[..w - 1] == ToBinary(n / 2, w - 1);
      BinaryRoundTrip(n / 2, w - 1);
    }
  }

  /** Parsing a binary string and writing the value back in as many bits gives the string. */
  lemma {:induction false} BinaryRoundTripString(s: string)
    requires IsBinary(s)
    ensures ToBinary(BinaryValue(s), |s|) == s
  {
    if |s| > 0 {
      var p := s[..|s| - 1];
      BinaryRoundTripString(p);
      var n := BinaryValue(s);
      assert n / 2 == BinaryValue(p) && n % 2 == BitValue(s[|s| - 1]);
      assert s == p + [s[|s| - 1]];
    }
  }

  /** Two bitwise complementary strings of width w add up to 2^w - 1. */
  lemma {:induction false} ComplementSum(s: string, t: string)
    requires IsBinary(s) && IsBinary(t) && |s| == |t|
    requires forall i :: 0 <= i < |s| ==> s[i] != t[i]
    ensures BinaryValue(s) + BinaryValue(t) == Pow2(|s|) - 1
  {
    if |s| > 0 {
      ComplementSum(s[..|s| - 1], t[..|t| - 1]);
    }
  }

  /** `getGammaRate`: the most common bits as a number. */
  function GammaRate(counts: seq<BitCount>): (r: Option<nat>)
    ensures r == None <==> |counts| == 0
    ensures r.Some? ==> r.value < Pow2(|counts|) && ToBinary(r.value, |counts|) == MostCommon(counts)
  {
    BitsToNumber(MostCommon(counts))
  }

  /** `getEpsilonRate`: the least common bits as a number. */
  function EpsilonRate(counts: seq<BitCount>): (r: Option<nat>)
    ensures r == None <==> |counts| == 0
    ensures r.Some? ==> r.value < Pow2(|counts|) && ToBinary(r.value, |counts|) == LeastCommon(counts)
  {
    BitsToNumber(LeastCommon(counts))
  }

  /**
   * Without ties the two rates are bitwise complements, so they add up to
   * 2^L - 1 for L positions; both are `NaN` when there are no positions.
   */
  lemma RatesAreComplements(counts: seq<BitCount>)
    requires !HasTie(counts)
    ensures |counts| == 0 ==> GammaRate(counts) == None && EpsilonRate(counts) == None
    ensures |counts| > 0 ==>
              && GammaRate(counts).Some? && EpsilonRate(counts).Some?
              && GammaRate(counts).value + EpsilonRate(counts).value == Pow2(|counts|) - 1
  {
    if |counts| > 0 {
      ComplementSum(MostCommon(counts), LeastCommon(counts));
    }
  }

  /** JavaScript multiplication of two parsed numbers: `NaN` when either is `NaN`. */
  function Times(a: Option<nat>, b: Option<nat>): Option<nat> {
    if a.Some? && b.Some? then Some(a.value * b.value) else None
  }

  /** `getPowerRate` (without its logging): gamma rate times epsilon rate. */
  method GetPowerRate(input: seq<string>) returns (rate: Option<nat>)
    ensures rate == Times(GammaRate(Tally(input)), EpsilonRate(Tally(input)))
    ensures MaxLength(input) == 0 <==> rate == None
  {
    var bitCounts := GetBitCounts(input);
    var gammaRate := GammaRate(bitCounts);
    var epsilonRate := EpsilonRate(bitCounts);
    rate := Times(gammaRate, epsilonRate);
  }

  /** Every reading holds either bit at a position it reaches, so the two counts cover them all. */
  lemma {:induction false} OccurrencesCover(input: seq<string>, i: nat)
    requires AllBinary(input)
    requires forall k :: 0 <= k < |input| ==> i < |input[k]|
    ensures Occurrences(input, i, '0') + Occurrences(input, i, '1') == |input|
  {
    if |input| > 0 {
      assert IsBit(input[0][i]);
      OccurrencesCover(input[1..], i);
    }
  }

  /** The twelve diagnostic readings of the puzzle's example. */
  const SampleReadings: seq<string> := ["00100", "11110", "10110", "10111", "10101", "01111", "00111", "11100", "10000", "11001", "00010", "01010"]

  /** The zeros per position in the twelve diagnostic readings of the puzzle's example. */
  lemma SampleZeros(input: seq<string>)
    requires input == SampleReadings
    ensures Occurrences(input, 0, '0') == 5
    ensures Occurrences(input, 1, '0') == 7
    ensures Occurrences(input, 2, '0') == 4
    ensures Occurrences(input, 3, '0') == 5
    ensures Occurrences(input, 4, '0') == 7
  {
    SampleColumn0();
    SampleColumn1();
    SampleColumn2();
    SampleColumn3();
    SampleColumn4();
  }

  lemma SampleColumn0() ensures Occurrences(SampleReadings, 0, '0') == 5 {}

  lemma SampleColumn1() ensures Occurrences(SampleReadings, 1, '0') == 7 {}

  lemma SampleColumn2() ensures Occurrences(SampleReadings, 2, '0') == 4 {}

  lemma SampleColumn3() ensures Occurrences(SampleReadings, 3, '0') == 5 {}

  lemma SampleColumn4() ensures Occurrences(SampleReadings, 4, '0') == 7 {}

  /** The example's readings are twelve binary strings of five bits. */
  lemma SampleShape(input: seq<string>)
    requires input == SampleReadings
    ensures |input| == 12 && AllBinary(input) && MaxLength(input) == 5
    ensures forall k :: 0 <= k < |input| ==> |input[k]| == 5
  {
    SampleWidths(input);
    UniformMaxLength(input, 5);
  }

  /** Each of the example's readings is five bits. */
  lemma SampleWidths(input: seq<string>)
    requires input == SampleReadings
    ensures |input| == 12
    ensures forall k :: 0 <= k < |input| ==> |input[k]| == 5 && IsBinary(input[k])
  {
    forall k | 0 <= k < |input|
      ensures |input[k]| == 5 && IsBinary(input[k])
    {
      var r := input[k];
      assert r[0] in "01" && r[1] in "01" && r[2] in "01" && r[3] in "01" && r[4] in "01";
    }
  }

  /** Readings of one common width w have maximum length w. */
  lemma {:induction false} UniformMaxLength(input: seq<string>, w: nat)
    requires |input| > 0
    requires forall k :: 0 <= k < |input| ==> |input[k]| == w
    ensures MaxLength(input) == w
  {
    if |input| > 1 {
      UniformMaxLength(input[1..], w);
    }
  }

  /** The rates the example's counts give. */
  lemma SampleRates(counts: seq<BitCount>)
    requires counts == [BitCount(5, 7), BitCount(7, 5), BitCount(4, 8), BitCount(5, 7), BitCount(7, 5)]
    ensures MostCommon(counts) == "10110" && LeastCommon(counts) == "01001"
    ensures GammaRate(counts) == Some(22) && EpsilonRate(counts) == Some(9)
    ensures Times(GammaRate(counts), EpsilonRate(counts)) == Some(198)
  {
    assert MostCommon(counts) == "10110";
    assert LeastCommon(counts) == "01001";
    assert BinaryValue("1") == 1;
    assert "10"[..1] == "1";
    assert BinaryValue("10") == 2;
    assert "101"[..2] == "10";
    assert BinaryValue("101") == 5;
    assert "1011"[..3] == "101";
    assert BinaryValue("1011") == 11;
    assert "10110"[..4] == "1011";
    assert BinaryValue("10110") == 22;
    assert BinaryValue("0") == 0;
    assert "01"[..1] == "0";
    assert BinaryValue("01") == 1;
    assert "010"[..2] == "01";
    assert BinaryValue("010") == 2;
    assert "0100"[..3] == "010";
    assert BinaryValue("0100") == 4;
    assert "01001"[..4] == "0100";
    assert BinaryValue("01001") == 9;
  }

  /**
   * The puzzle's example: the counts are 5/7, 7/5, 4/8, 5/7 and 7/5 zeros/ones,
   * so the gamma rate is 10110 = 22, the epsilon rate 01001 = 9 and the power 198.
   */
  lemma SamplePowerRate(input: seq<string>)
    requires input == SampleReadings
    ensures Tally(input) == [BitCount(5, 7), BitCount(7, 5), BitCount(4, 8), BitCount(5, 7), BitCount(7, 5)]
    ensures GammaRate(Tally(input)) == Some(22) && EpsilonRate(Tally(input)) == Some(9)
    ensures Times(GammaRate(Tally(input)), EpsilonRate(Tally(input))) == Some(198)
  {
    SampleShape(input);
    SampleZeros(input);
    TwelveReadingsTally(input);
    SampleRates(Tally(input));
  }

  /** Twelve binary readings of five bits with the example's zero counts have the example's tally. */
  lemma TwelveReadingsTally(input: seq<string>)
    requires |input| == 12 && AllBinary(input) && MaxLength(input) == 5
    requires forall k :: 0 <= k < |input| ==> |input[k]| == 5
    requires Occurrences(input, 0, '0') == 5 && Occurrences(input, 1, '0') == 7 && Occurrences(input, 2, '0') == 4
    requires Occurrences(input, 3, '0') == 5 && Occurrences(input, 4, '0') == 7
    ensures Tally(input) == [BitCount(5, 7), BitCount(7, 5), BitCount(4, 8), BitCount(5, 7), BitCount(7, 5)]
  {
    TallyCounts(input);
    var counts := Tally(input);
    var expected := [BitCount(5, 7), BitCount(7, 5), BitCount(4, 8), BitCount(5, 7), BitCount(7, 5)];
    forall i | 0 <= i < 5 ensures counts[i] == expected[i] {
      OccurrencesCover(input, i);
    }
  }
}
