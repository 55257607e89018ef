/**
 The Mersenne Twister of canneal: the state array is overwritten in place, 624 words at a time,
 yet the numbers drawn are the terms of one unbounded recurrence.  The C++ type is at least
 32 bits wide; here it is 64, and every word stays below 2^32.
 */
module MersenneTwister {

  type Word = bv64

  const N := 624
  const M := 397

  function HiBit(u: Word): Word { u & 0x80000000 }
  function LoBit(u: Word): Word { u & 1 }
  function LoBits(u: Word): Word { u & 0x7fffffff }
  function MixBits(u: Word, v: Word): Word { HiBit(u) | LoBits(v) }
  function Minus(u: Word): Word { 0 - u }

  function Xor(u: Word, v: Word): Word { u ^ v }
  function Half(s0: Word, s1: Word): Word { MixBits(s0, s1) >> 1 }
  function Magic(s1: Word): Word { Minus(LoBit(s1)) & 0x9908b0df }

  function Twist(m: Word, s0: Word, s1: Word): Word { Xor(Xor(m, Half(s0, s1)), Magic(s1)) }

  function TemperU(y: Word): Word { y >> 11 }
  function TemperS(y: Word): Word { (y << 7) & 0x9d2c5680 }
  function TemperT(y: Word): Word { (y << 15) & 0xefc60000 }
  function TemperL(y: Word): Word { y >> 18 }

  function Temper(y: Word): Word {
    var y1 := Xor(y, TemperU(y));
    var y2 := Xor(y1, TemperS(y1));
    var y3 := Xor(y2, TemperT(y2));
    Xor(y3, TemperL(y3))
  }

  /** The recurrence x[k+624] = twist(x[k+397], x[k], x[k+1]) from 624 given words. */
  ghost function X(init: seq<Word>, k: nat): Word
    requires |init| == N
  {
    if k < N then init[k] else Twist(X(init, k - N + M), X(init, k - N), X(init, k - N + 1))
  }

  lemma XStep(init: seq<Word>, k: nat)
    requires |init| == N
    ensures X(init, k + N) == Twist(X(init, k + M), X(init, k), X(init, k + 1))
  {
  }

  predicate Narrow(u: Word) { u <= 0xffffffff }

  lemma TwistNarrow(m: Word, s0: Word, s1: Word)
    requires Narrow(m)
    ensures Narrow(Twist(m, s0, s1))
  {
  }

  lemma TemperNarrow(y: Word)
    requires Narrow(y)
    ensures Narrow(Temper(y))
  {
  }

  predicate AllNarrow(words: seq<Word>) { forall i :: 0 <= i < |words| ==> Narrow(words[i]) }

  /** From words of 32 bits only terms of 32 bits come. */
  lemma {:induction false} XNarrow(init: seq<Word>, k: nat)
    requires |init| == N && AllNarrow(init)
    ensures Narrow(X(init, k))
  {
    if k >= N {
      XNarrow(init, k - N + M);
      hide Twist, Narrow;
      TwistNarrow(X(init, k - N + M), X(init, k - N), X(init, k - N + 1));
    }
  }

  function Stir(r: Word, i: nat): Word { 1812433253 * (r ^ (r >> 30)) + (i % 0x1_0000_0000) as bv64 }

  function NextSeed(r: Word, i: nat): Word { Stir(r, i) & 0xffffffff }

  /** The words that initialize() computes from a seed. */
  ghost function Seeded(seed: Word, i: nat): Word {
    if i == 0 then seed & 0xffffffff else NextSeed(Seeded(seed, i - 1), i)
  }

  lemma SeededFirst(seed: Word)
    ensures Seeded(seed, 0) == seed & 0xffffffff
  {
  }

  lemma SeededNext(seed: Word, i: nat)
    requires i > 0
    ensures Seeded(seed, i) == NextSeed(Seeded(seed, i - 1), i)
  {
    hide NextSeed;
  }

  lemma XStarts(init: seq<Word>)
    requires |init| == N
    ensures forall k :: 0 <= k < N ==> X(init, k) == init[k]
  {
    hide Twist;
  }

  ghost function SeedState(seed: Word): seq<Word> {
    seq(N, i requires 0 <= i < N => Seeded(seed, i))
  }

  lemma MaskNarrow(u: Word)
    ensures Narrow(u & 0xffffffff)
  {
  }

  lemma SeededNarrow(seed: Word, i: nat)
    ensures Narrow(Seeded(seed, i))
  {
    hide Narrow, Stir;
    if i == 0 { MaskNarrow(seed); } else { MaskNarrow(Stir(Seeded(seed, i - 1), i)); }
  }

  lemma SeedNarrow(seed: Word)
    ensures AllNarrow(SeedState(seed))
  {
    hide Narrow, Seeded;
    forall i | 0 <= i < N ensures Narrow(SeedState(seed)[i]) { SeededNarrow(seed, i); }
  }

  /** Every number drawn from a seeded stream is an integer in [0, 2^32 - 1]. */
  lemma DrawNarrow(seed: Word, n: nat)
    ensures Narrow(Temper(X(SeedState(seed), N + n)))
  {
    hide Narrow, Temper, X, Seeded;
    SeedNarrow(seed);
    XNarrow(SeedState(seed), N + n);
    TemperNarrow(X(SeedState(seed), N + n));
  }

  class MTRand {
    const state: array<Word>
    var pNext: nat
    var left: nat

    /** state holds terms base .. base + 624 of the recurrence. */
    ghost predicate Window(init: seq<Word>, base: nat)
      reads state
    {
      state.Length == N && |init| == N && forall i :: 0 <= i < N ==> state[i] == X(init, base + i)
    }

    /** The next number is number n of the stream that starts at term 624. */
    ghost predicate At(init: seq<Word>, n: nat)
      reads this, state
    {
      && left <= N && pNext == N - left
      && Window(init, n + left)
    }

    constructor ()
      ensures fresh(state) && state.Length == N
    {
      state := new Word[N](_ => 0);
      pNext, left := 0, 0;
    }

    method Initialize(seed: Word)
      requires state.Length == N
      modifies state
      ensures Window(SeedState(seed), 0)
    {
      hide NextSeed, Seeded, X;
      SeededFirst(seed);
      state[0] := seed & 0xffffffff;
      var i := 1;
      while i < N
        invariant 1 <= i <= N
        invariant forall j :: 0 <= j < i ==> state[j] == Seeded(seed, j)
      {
        SeededNext(seed, i);
        state[i] := NextSeed(state[i - 1], i);
        i := i + 1;
      }
      XStarts(SeedState(seed));
    }

    /** All 624 words are replaced by the next 624 terms, in place, in three phases. */
    method Reload(ghost init: seq<Word>, ghost base: nat)
      requires Window(init, base)
      modifies this, state
      ensures Window(init, base + N) && left == N && pNext == 0
    {
      hide Twist, X;
      var p := 0;
      while p < N - M
        invariant 0 <= p <= N - M
        invariant forall i :: 0 <= i < p ==> state[i] == X(init, base + N + i)
        invariant forall i :: p <= i < N ==> state[i] == X(init, base + i)
      {
        XStep(init, base + p);
        state[p] := Twist(state[p + M], state[p], state[p + 1]);
        p := p + 1;
      }
      while p < N - 1
        invariant N - M <= p <= N - 1
        invariant forall i :: 0 <= i < p ==> state[i] == X(init, base + N + i)
        invariant forall i :: p <= i < N ==> state[i] == X(init, base + i)
      {
        XStep(init, base + p);
        state[p] := Twist(state[p + M - N], state[p], state[p + 1]);
        p := p + 1;
      }
      XStep(init, base + p);
      state[p] := Twist(state[p + M - N], state[p], state[0]);
      left, pNext := N, 0;
    }

    /** seed(oneSeed) */
    method Seed(seed: Word)
      requires state.Length == N
      modifies this, state
      ensures At(SeedState(seed), 0)
    {
      hide X, Seeded;
      Initialize(seed);
      Reload(SeedState(seed), 0);
    }

    /** The next number of the stream is the tempered next term of the recurrence. */
    method RandInt(ghost init: seq<Word>, ghost n: nat) returns (r: Word)
      requires At(init, n)
      modifies this, state
      ensures r == Temper(X(init, N + n)) && At(init, n + 1)
    {
      hide X, Temper;
      if left == 0 {
        Reload(init, n + left);
      }
      left := left - 1;
      var s1 := state[pNext];
      pNext := pNext + 1;
      r := Temper(s1);
    }

    /** Any number of draws, across any number of reloads. */
    method Draw(count: nat, ghost init: seq<Word>, ghost n: nat) returns (out: seq<Word>)
      requires At(init, n)
      modifies this, state
      ensures |out| == count && At(init, n + count)
      ensures forall i :: 0 <= i < count ==> out[i] == Temper(X(init, N + n + i))
    {
      hide X, Temper;
      out := [];
      while |out| < count
        invariant |out| <= count && At(init, n + |out|)
        invariant forall i :: 0 <= i < |out| ==> out[i] == Temper(X(init, N + n + i))
      {
        var r := RandInt(init, n + |out|);
        out := out + [r];
      }
    }

    /** A generator seeded and drawn from: the tempered terms of the seed's recurrence, each of 32 bits. */
    method SeedAndDraw(seed: Word, count: nat) returns (out: seq<Word>)
      requires state.Length == N
      modifies this, state
      ensures |out| == count && AllNarrow(out)
      ensures forall i :: 0 <= i < count ==> out[i] == Temper(X(SeedState(seed), N + i))
    {
      hide X, Temper, Seeded, Narrow;
      Seed(seed);
      out := Draw(count, SeedState(seed), 0);
      forall i | 0 <= i < count
        ensures Narrow(out[i])
      {
        DrawNarrow(seed, i);
      }
    }

    /** save: the words and how many of them are left. */
    method Save(saveArray: array<Word>)
      requires state.Length == N && saveArray.Length == N + 1 && saveArray != state && left <= N
      modifies saveArray
      ensures saveArray[..N] == state[..] && saveArray[N] == ToWord(left)
    {
      hide ToWord;
      var i := 0;
      while i < N
        invariant 0 <= i <= N
        invariant forall j :: 0 <= j < i ==> saveArray[j] == state[j]
      {
        saveArray[i] := state[i];
        i := i + 1;
      }
      saveArray[N] := ToWord(left);
    }

    /** load: what save wrote at number n of a stream puts any generator at number n of that stream. */
    method Load(loadArray: array<Word>, ghost init: seq<Word>, ghost n: nat)
      requires state.Length == N && loadArray.Length == N + 1 && loadArray != state
      requires Saved(loadArray[..], init, n)
      modifies this, state
      ensures At(init, n) && state[..] == loadArray[..N]
    {
      hide X, FromWord;
      var i := 0;
      while i < N
        invariant 0 <= i <= N
        invariant forall j :: 0 <= j < i ==> state[j] == loadArray[j]
      {
        state[i] := loadArray[i];
        i := i + 1;
      }
      left := FromWord(loadArray[N]);
      pNext := N - left;
    }
  }

  /** Two halves of five bits. */
  function Word10(hi: bv5, lo: bv5): Word { ((hi as Word) << 5) | (lo as Word) }
  function Hi5(w: Word): bv5 { ((w >> 5) & 0x1f) as bv5 }
  function Lo5(w: Word): bv5 { (w & 0x1f) as bv5 }

  function ToWord(n: nat): Word
    requires n <= N
  {
    Word10((n / 32) as bv5, (n % 32) as bv5)
  }

  function FromWord(w: Word): nat { 32 * (Hi5(w) as nat) + Lo5(w) as nat }

  lemma WordRoundTrip(n: nat)
    requires n <= N
    ensures ToWord(n) <= 0x3ff && FromWord(ToWord(n)) == n
  {
    hide Word10, Hi5, Lo5;
    TenBits((n / 32) as bv5, (n % 32) as bv5);
    FiveBits(n / 32);
    FiveBits(n % 32);
  }

  lemma FiveBits(n: nat)
    requires n < 32
    ensures (n as bv5) as nat == n
  {
  }

  lemma TenBits(hi: bv5, lo: bv5)
    ensures Word10(hi, lo) <= 0x3ff && Hi5(Word10(hi, lo)) == hi && Lo5(Word10(hi, lo)) == lo
  {
  }

  /** An array that describes number n of a stream. */
  ghost predicate Saved(a: seq<Word>, init: seq<Word>, n: nat) {
    && |a| == N + 1 && |init| == N && a[N] <= 0x3ff && FromWord(a[N]) <= N
    && forall i :: 0 <= i < N ==> a[i] == X(init, n + FromWord(a[N]) + i)
  }

  /**
   Whatever a generator was doing before, after loading what another saved it draws exactly the
   numbers the other draws from there on.
   */
  method SaveThenLoad(g: MTRand, h: MTRand, a: array<Word>, count: nat, ghost init: seq<Word>, ghost n: nat)
    returns (fromG: seq<Word>, fromH: seq<Word>)
    requires g.At(init, n) && h.state.Length == N && g != h && g.state != h.state
    requires a.Length == N + 1 && a != g.state && a != h.state
    modifies g, h, g.state, h.state, a
    ensures fromG == fromH && |fromG| == count
  {
    hide X, Temper, ToWord, FromWord;
    WordRoundTrip(g.left);
    g.Save(a);
    assert Saved(a[..], init, n) by { assert a[..][N] == ToWord(g.left); assert forall i :: 0 <= i < N ==>
           a[..][i] == g.state[i]; }
    h.Load(a, init, n);
    fromG := g.Draw(count, init, n);
    fromH := h.Draw(count, init, n);
  }

  // ----- twisting and tempering, bit by bit: both are linear, so the images of single bits say all

  lemma XorCommutes(a: Word, b: Word)
    ensures Xor(a, b) == Xor(b, a)
  {
  }

  lemma XorAssociates(a: Word, b: Word, c: Word)
    ensures Xor(Xor(a, b), c) == Xor(a, Xor(b, c))
  {
    hide Xor;
    XorIs(a, b);
    XorIs(b, c);
    XorMoves(a, b, c);
  }

  lemma XorIs(a: Word, b: Word)
    ensures Xor(a, b) == a ^ b
  {
  }

  lemma XorMoves(a: Word, b: Word, c: Word)
    ensures Xor(a ^ b, c) == Xor(a, b ^ c)
  {
  }

  lemma XorSwap(a: Word, b: Word, c: Word, d: Word)
    ensures Xor(Xor(a, b), Xor(c, d)) == Xor(Xor(a, c), Xor(b, d))
  {
    hide Xor;
    XorAssociates(a, b, Xor(c, d));
    XorAssociates(b, c, d);
    XorCommutes(b, c);
    XorAssociates(c, b, d);
    XorAssociates(a, c, Xor(b, d));
  }

  lemma ULinear(a: Word, b: Word)
    ensures TemperU(Xor(a, b)) == Xor(TemperU(a), TemperU(b))
  {
  }

  lemma SLinear(a: Word, b: Word)
    ensures TemperS(Xor(a, b)) == Xor(TemperS(a), TemperS(b))
  {
  }

  lemma TLinear(a: Word, b: Word)
    ensures TemperT(Xor(a, b)) == Xor(TemperT(a), TemperT(b))
  {
  }

  lemma LLinear(a: Word, b: Word)
    ensures TemperL(Xor(a, b)) == Xor(TemperL(a), TemperL(b))
  {
  }

  /** Tempering is linear over exclusive or. */
  lemma TemperLinear(a: Word, b: Word)
    ensures Temper(Xor(a, b)) == Xor(Temper(a), Temper(b))
  {
    hide Xor, TemperU, TemperS, TemperT, TemperL;
    var a1, b1 := Xor(a, TemperU(a)), Xor(b, TemperU(b));
    ULinear(a, b);
    XorSwap(a, b, TemperU(a), TemperU(b));
    var a2, b2 := Xor(a1, TemperS(a1)), Xor(b1, TemperS(b1));
    SLinear(a1, b1);
    XorSwap(a1, b1, TemperS(a1), TemperS(b1));
    var a3, b3 := Xor(a2, TemperT(a2)), Xor(b2, TemperT(b2));
    TLinear(a2, b2);
    XorSwap(a2, b2, TemperT(a2), TemperT(b2));
    LLinear(a3, b3);
    XorSwap(a3, b3, TemperL(a3), TemperL(b3));
  }

  /** What it makes of each of the 32 bits. */
  lemma TemperLowBits()
    ensures Temper(0x1) == 0x400091 && Temper(0x2) == 0x2
    ensures Temper(0x4) == 0x1020244 && Temper(0x8) == 0x2040489
    ensures Temper(0x10) == 0x10 && Temper(0x20) == 0x8001220
    ensures Temper(0x40) == 0x40 && Temper(0x80) == 0x20404890
    ensures Temper(0x100) == 0x800120 && Temper(0x200) == 0x1000240
    ensures Temper(0x400) == 0x2000480 && Temper(0x800) == 0x4440990
    ensures Temper(0x1000) == 0x8081200 && Temper(0x2000) == 0x1022244
    ensures Temper(0x4000) == 0x22244c81 && Temper(0x8000) == 0x40009010
  {
  }

  lemma TemperHighBits()
    ensures Temper(0x10000) == 0x88013220 && Temper(0x20000) == 0x1020000
    ensures Temper(0x40000) == 0x20444891 && Temper(0x80000) == 0x4880022
    ensures Temper(0x100000) == 0x9100044 && Temper(0x200000) == 0x12200088
    ensures Temper(0x400000) == 0x4440911 && Temper(0x800000) == 0x8881222
    ensures Temper(0x1000000) == 0x81000040 && Temper(0x2000000) == 0x22204888
    ensures Temper(0x4000000) == 0x44009100 && Temper(0x8000000) == 0x88012200
    ensures Temper(0x10000000) == 0x11020440 && Temper(0x20000000) == 0x20040801
    ensures Temper(0x40000000) == 0x44081102 && Temper(0x80000000) == 0x88102204
  {
  }

  lemma HalfLinear(a: Word, b: Word, c: Word, d: Word)
    ensures Half(Xor(a, c), Xor(b, d)) == Xor(Half(a, b), Half(c, d))
  {
  }

  lemma MagicLinear(a: Word, b: Word)
    ensures Magic(Xor(a, b)) == Xor(Magic(a), Magic(b))
  {
  }

  /** The recurrence is linear in the three words together. */
  lemma TwistLinear(m: Word, s0: Word, s1: Word, m': Word, s0': Word, s1': Word)
    ensures Twist(Xor(m, m'), Xor(s0, s0'), Xor(s1, s1')) == Xor(Twist(m, s0, s1), Twist(m', s0', s1'))
  {
    hide Xor, Half, Magic;
    HalfLinear(s0, s1, s0', s1');
    MagicLinear(s1, s1');
    XorSwap(m, m', Half(s0, s1), Half(s0', s1'));
    XorSwap(Xor(m, Half(s0, s1)), Xor(m', Half(s0', s1')), Magic(s1), Magic(s1'));
  }

  /**
   What it makes of each bit: the first word passes, of the second only the highest bit counts and goes
   one place down, and so do the middle ones of the third; its lowest becomes the constant of the standard.
   */
  lemma TwistBits(w: Word)
    ensures Twist(w, 0, 0) == w && Twist(0, w, 0) == Half(w, 0) && Twist(0, 0, w) == Xor(Half(0, w), Magic(w))
    ensures Half(w, 0) == if w & 0x80000000 == 0 then 0 else 0x40000000
    ensures Half(0, w) == (w & 0x7fffffff) >> 1
    ensures Magic(w) == if w & 1 == 0 then 0 else 0x9908b0df
  {
    HalfBits(w);
    MagicBits(w);
    hide Half, Magic;
    assert Half(0, 0) == 0 && Magic(0) == 0 by { HalfBits(0); MagicBits(0); }
  }

  lemma HalfBits(w: Word)
    ensures Half(w, 0) == if w & 0x80000000 == 0 then 0 else 0x40000000
    ensures Half(0, w) == (w & 0x7fffffff) >> 1
  {
  }

  lemma MagicBits(w: Word)
    ensures Magic(w) == if w & 1 == 0 then 0 else 0x9908b0df
  {
  }

  /** The second and third words of the default seed. */
  lemma SecondWord()
    ensures NextSeed(5489, 1) == 1301868182
  {
  }

  lemma ThirdWord()
    ensures NextSeed(1301868182, 2) == 2938499221
  {
  }
}
