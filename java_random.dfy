/** `java.util.Random` as its callers see it: a stream of the 32-bit outputs of
    the generator's `next(32)`, consumed one at a time and in order. The linear
    congruential update that produces the stream is not modelled; the stream is
    a parameter. */
module JavaRandom {
  import opened JavaLang

  /** `nextLong()` from two consecutive outputs: `((long) next(32) << 32) + next(32)`,
      in `long` arithmetic. */
  function LongOf(hi: Int32, lo: Int32): Int64
  {
    var x := hi * 0x1_0000_0000 + lo;
    if x < -0x8000_0000_0000_0000 then x + 0x1_0000_0000_0000_0000 else x
  }

  /** Only a negative low word added to the smallest shifted high word leaves the
      `long` range, so `LongOf` is the sum reduced modulo 2^64. */
  lemma LongOfWraps(hi: Int32, lo: Int32)
    ensures LongOf(hi, lo) == Wrap64(hi * 0x1_0000_0000 + lo)
  {
    var x := hi * 0x1_0000_0000 + lo;
    Wrap64Congruent(LongOf(hi, lo), x);
  }

  /** The shift never overflows, so only the addition of the (signed) low word wraps. */
  lemma LongOfWithoutWrap(hi: Int32, lo: Int32)
    requires (-0x8000_0000_0000_0000) <= hi * 0x1_0000_0000 + lo <= 0x7fff_ffff_ffff_ffff
    ensures LongOf(hi, lo) == hi * 0x1_0000_0000 + lo
  {
  }

  /** `nextLong()` yields Long.MIN_VALUE, the one value `Math.abs` leaves negative,
      for exactly one pair of outputs. */
  lemma LongOfIsMinLong(hi: Int32, lo: Int32)
    ensures LongOf(hi, lo) == (-0x8000_0000_0000_0000) <==> hi == (-0x8000_0000) && lo == 0
  {
    var x := hi * 0x1_0000_0000 + lo;
    assert (-0x8000_0000_0000_0000) - 0x1_0000_0000 < x < 0x7fff_ffff_ffff_ffff + 1;
    if LongOf(hi, lo) == (-0x8000_0000_0000_0000) {
      assert (x - (-0x8000_0000_0000_0000)) % 0x1_0000_0000_0000_0000 == 0;
      assert x == (-0x8000_0000_0000_0000);
      assert lo == (-0x8000_0000_0000_0000) - hi * 0x1_0000_0000;
    }
  }

  /** `Math.abs(random.nextLong())` over the two outputs `nextLong()` consumes:
      the magnitude of the long, except for the one pair of outputs that forms
      Long.MIN_VALUE, which stays negative. */
  function AbsNextLong(hi: Int32, lo: Int32): (r: Int64)
    ensures r < 0 <==> hi == (-0x8000_0000) && lo == 0
    ensures r >= 0 ==> r == Mag(LongOf(hi, lo))
  {
    LongOfIsMinLong(hi, lo);
    AbsLong(LongOf(hi, lo))
  }

  /** The outputs of `next(32)` for one seed, in order. */
  type Stream = nat -> Int32

  /** The k-th output of a stream. */
  function Output(word: Stream, k: nat): Int32
  {
    word(k)
  }

  class Random {
    /** The k-th output of `next(32)` for this generator's seed. */
    const word: Stream
    /** How many outputs have been consumed so far. */
    var drawn: nat

    constructor (word: Stream)
      ensures this.word == word && drawn == 0
    {
      this.word := word;
      drawn := 0;
    }

    /** `nextInt()`: one output. */
    method NextInt() returns (r: Int32)
      modifies this
      ensures r == Output(word, old(drawn)) && drawn == old(drawn) + 1
    {
      r := Output(word, drawn);
      drawn := drawn + 1;
    }

    /** `nextLong()`: two outputs, high word first. */
    method NextLong() returns (r: Int64)
      modifies this
      ensures r == LongOf(Output(word, old(drawn)), Output(word, old(drawn) + 1))
      ensures drawn == old(drawn) + 2
    {
      var hi := NextInt();
      var lo := NextInt();
      r := LongOf(hi, lo);
    }
  }
}
