/** Sampling from a stream of 64-bit words (services/simulation-server/src/randomness.rs).
    The generator itself is arbitrary: a stream is any infinite sequence of words, read from a position. */
module Randomness {
  import opened Wrappers
  import opened Sums

  newtype Word = w: int | 0 <= w < 0x1_0000_0000_0000_0000

  type Stream = nat -> Word

  datatype RandomError = InvalidRange

  const UNIT_STEPS: real := 9007199254740992.0

  /** The top 53 bits as a fraction. */
  function Unit(w: Word): (fraction: real)
    ensures 0.0 <= fraction < 1.0
  {
    ((w as int / 2048) as real) / UNIT_STEPS
  }

  /** The top bit. */
  function Boolean(w: Word): bool {
    w as int / 0x8000_0000_0000_0000 != 0
  }

  /** A value between ordered bounds; the upper bound is excluded unless both agree. */
  function Uniform(w: Word, lower: real, upper: real): (value: real)
    requires lower <= upper
    ensures lower <= value <= upper
    ensures lower < upper ==> value < upper
  {
    if lower == upper then lower
    else
      FractionOfWidth(upper - lower, Unit(w));
      lower + Times(upper - lower, Unit(w))
  }

  /** A draw: the top 53 of the 64 bits, as a fraction, place the value between the bounds. */
  predicate IsDraw(w: Word, lower: real, upper: real, value: real) {
    value == lower + Times(upper - lower, ((w as int / 2048) as real) / 9007199254740992.0)
  }

  lemma UniformIsDraw(w: Word, lower: real, upper: real)
    requires lower <= upper
    ensures IsDraw(w, lower, upper, Uniform(w, lower, upper))
  {
    TimesZero(Unit(w));
  }

  lemma FractionOfWidth(width: real, fraction: real)
    requires width > 0.0 && 0.0 <= fraction < 1.0
    ensures 0.0 <= Times(width, fraction) < width
  {
    assert Times(width, 1.0 - fraction) > 0.0;
  }

  /** A reader of one stream. */
  class RandomSource {
    const words: Stream
    var position: nat

    constructor (words: Stream)
      ensures this.words == words && position == 0
    {
      this.words := words;
      position := 0;
    }

    method NextWord() returns (w: Word)
      modifies this
      ensures w == words(old(position)) && position == old(position) + 1
    {
      w := words(position);
      position := position + 1;
    }

    method NextBoolean() returns (b: bool)
      modifies this
      ensures b == Boolean(words(old(position))) && position == old(position) + 1
    {
      var w := NextWord();
      b := Boolean(w);
    }

    /** One word is consumed by every valid call, even for equal bounds, and none by an invalid one. */
    method NextUniform(lower: real, upper: real) returns (r: Result<real, RandomError>)
      modifies this
      ensures upper < lower ==> r == Failure(InvalidRange) && position == old(position)
      ensures lower <= upper ==>
                r == Success(Uniform(words(old(position)), lower, upper)) && position == old(position) + 1
    {
      var width := upper - lower;
      if upper < lower {
        return Failure(InvalidRange);
      }
      var w := NextWord();
      var fraction := Unit(w);
      if lower == upper {
        return Success(lower);
      }
      FractionOfWidth(width, fraction);
      r := Success(lower + Times(width, fraction));
    }
  }
}
