/**
 * The generator's `java.util.Random` together with the `RandomUtils` helpers it
 * calls. Neither is part of this model: every draw reads the next value of a
 * fixed stream, so everything the generator does is a function of that stream.
 */
module Randomness {

  class RandomSource {
    /** The raw value of each successive draw. */
    const stream: nat -> nat
    /** How many draws have been taken. */
    var drawn: nat

    constructor (stream: nat -> nat)
      ensures this.stream == stream && drawn == 0
    {
      this.stream := stream;
      drawn := 0;
    }

    /** `RandomUtils.uniform(random, n)`: a value in `[0, n)` taken from the next draw. */
    method Uniform(n: int) returns (r: int)
      requires n > 0
      modifies this
      ensures 0 <= r < n
      ensures r == stream(old(drawn)) % n && drawn == old(drawn) + 1
    {
      r := stream(drawn) % n;
      drawn := drawn + 1;
    }

    /** `RandomUtils.uniform(random, a, b)`: `a` plus a draw in `[0, b - a)`. */
    method UniformRange(a: int, b: int) returns (r: int)
      requires a < b
      modifies this
      ensures a <= r < b
      ensures r == a + stream(old(drawn)) % (b - a) && drawn == old(drawn) + 1
    {
      var k := Uniform(b - a);
      r := a + k;
    }

    /**
     * `RandomUtils.shuffle(random, a)`: the Knuth shuffle, swapping each
     * position with a drawn position at or after it.
     */
    method Shuffle<T>(a: array<T>)
      modifies this, a
      ensures multiset(a[..]) == multiset(old(a[..]))
      ensures drawn == old(drawn) + a.Length
    {
      var n := a.Length;
      var i := 0;
      while i < n
        invariant 0 <= i <= n
        invariant multiset(a[..]) == multiset(old(a[..]))
        invariant drawn == old(drawn) + i
      {
        var k := Uniform(n - i);
        var r := i + k;
        a[i], a[r] := a[r], a[i];
        i := i + 1;
      }
    }
  }
}
