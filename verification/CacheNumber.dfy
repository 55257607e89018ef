/**
 The number that incr and decr keep as text in an item: reading it, changing it in 64 bits, and writing
 it back over the old text or into a longer item.  On the texts this is arithmetic on the numbers.
 */
module CacheNumber {
  import opened Wrappers
  import opened CacheSpec
  import opened CacheStore
  import opened CacheDelta
  import opened CacheKeys

  const WORD: int := 0x1_0000_0000_0000_0000

  /** A 64-bit word as a signed number. */
  function Signed(n: int): (r: int)
    ensures -WORD / 2 <= r < WORD / 2 && r % WORD == n % WORD
  {
    var m := n % WORD;
    if m >= WORD / 2 then m - WORD else m
  }

  /** strtoull into a signed word; none if the number is out of range. */
  function ReadNumber(data: string): Option<int> {
    var n := Atol(data);
    if -WORD < n < WORD then Some(Signed(n)) else None
  }

  /** A decrement stops at 0, an increment wraps. */
  function Adjusted(value: int, incr: bool, delta: int): int {
    if incr then Signed(value + delta) else if delta >= value then 0 else Signed(value - delta)
  }

  function DigitOf(d: nat): (c: char)
    requires d < 10
    ensures IsDigit(c) && DigitValue(c) == d
  {
    ('0' as int + d) as char
  }

  function Decimal(n: nat): (s: string)
    ensures s != [] && Numeric(s)
  {
    if n < 10 then [DigitOf(n)] else Decimal(n / 10) + [DigitOf(n % 10)]
  }

  /** sprintf with %lu */
  function Text(value: int): string { Decimal(value % WORD) }

  lemma {:induction false} DecimalDigits(n: nat)
    ensures Digits(Decimal(n), 0) == n
  {
    if n < 10 {
      assert [DigitOf(n)][1..] == [];
    } else {
      DecimalDigits(n / 10);
      DigitsLast(Decimal(n / 10), DigitOf(n % 10), 0);
    }
  }

  /** The usual notation: digits with their places, without a leading zero. */
  lemma {:induction false} DecimalIs(n: nat)
    ensures Value(Decimal(n)) == n && (n > 0 ==> Decimal(n)[0] != '0')
  {
    DecimalDigits(n);
    DigitsValue(Decimal(n), [], 0);
    assert Decimal(n) + [] == Decimal(n);
    if n >= 10 { DecimalIs(n / 10); }
  }

  lemma {:induction false} DecimalSize(n: nat)
    ensures |Decimal(n)| == DecimalLength(n)
  {
    if n >= 10 { DecimalSize(n / 10); }
  }

  /** The size of an item is that of its header, key, suffix text and data. */
  lemma ItemSize(key: string, flags: nat, nbytes: nat)
    requires nbytes >= 2
    ensures NTotal(key, flags, nbytes) ==
            SIZEOF_ITEM + |key + "\0"| + |" " + Decimal(flags) + " " + Decimal(nbytes - 2) + "\r\n"| + nbytes
  {
    DecimalSize(flags);
    DecimalSize(nbytes - 2);
  }

  /** What is written can be read, whatever follows that is no digit. */
  lemma TextReads(value: int, tail: string)
    requires -WORD / 2 <= value < WORD / 2 && NoDigit(tail)
    ensures ReadNumber(Text(value) + tail) == Some(value)
  {
    var s := Text(value);
    DecimalDigits(value % WORD);
    DigitsTail(s, tail);
    assert (s + tail)[0] == s[0];
    assert IsDigit(s[0]);
  }

  /** Items end in a line break. */
  predicate EndsLine(data: string) { |data| >= 2 && data[|data| - 2..] == "\r\n" }

  /** The data after a change, on either path of do_add_delta. */
  function Rewritten(data: string, text: string): string {
    if |text| + 2 > |data| then text + "\r\n" else Patched(data, text)
  }

  lemma RewrittenReads(data: string, value: int)
    requires EndsLine(data) && -WORD / 2 <= value < WORD / 2
    ensures EndsLine(Rewritten(data, Text(value))) && ReadNumber(Rewritten(data, Text(value))) == Some(value)
  {
    var text := Text(value);
    if |text| + 2 > |data| {
      assert (text + "\r\n")[|text|..] == "\r\n";
      TextReads(value, "\r\n");
    } else {
      var tail := seq(|data| - |text| - 2, i => ' ') + data[|data| - 2..];
      assert data[|data| - 2..][0] == '\r';
      assert Patched(data, text) == text + tail;
      TextReads(value, tail);
    }
  }

  // ----- any number of changes

  datatype Change = Change(incr: bool, delta: int)

  /** incr and decr on the text of an item. */
  function OnText(data: string, c: Change): Option<string> {
    match ReadNumber(data)
    case None => None
    case Some(v) => Some(Rewritten(data, Text(Adjusted(v, c.incr, c.delta))))
  }

  function AllOnText(data: string, cs: seq<Change>): Option<string>
    decreases cs
  {
    if cs == [] then Some(data)
    else
      match OnText(data, cs[0])
      case None => None
      case Some(d) => AllOnText(d, cs[1..])
  }

  function AllOnNumber(value: int, cs: seq<Change>): int
    decreases cs
  {
    if cs == [] then value else AllOnNumber(Adjusted(value, cs[0].incr, cs[0].delta), cs[1..])
  }

  /**
   On the texts, any sequence of incr and decr is the same sequence on the numbers; none fails once
   one could be read.
   */
  lemma {:induction false} TextsCount(data: string, cs: seq<Change>)
    requires EndsLine(data) && ReadNumber(data).Some?
    ensures var last := AllOnText(data, cs);
            last.Some? && EndsLine(last.value) &&
                ReadNumber(last.value) == Some(AllOnNumber(ReadNumber(data).value, cs))
    decreases cs
  {
    hide ReadNumber, Text, Rewritten;
    if cs != [] {
      ReadsSigned(data);
      var v := Adjusted(ReadNumber(data).value, cs[0].incr, cs[0].delta);
      RewrittenReads(data, v);
      TextsCount(Rewritten(data, Text(v)), cs[1..]);
    }
  }

  lemma ReadsSigned(data: string)
    ensures ReadNumber(data).Some? ==> -WORD / 2 <= ReadNumber(data).value < WORD / 2
  {
  }

  function Sum(cs: seq<Change>): int
    decreases cs
  {
    if cs == [] then 0 else cs[0].delta + Sum(cs[1..])
  }

  /** Increments add up, modulo 2^64, in whatever order they come. */
  lemma {:induction false} IncrementsAddUp(value: int, cs: seq<Change>)
    requires -WORD / 2 <= value < WORD / 2 && forall i :: 0 <= i < |cs| ==> cs[i].incr
    ensures AllOnNumber(value, cs) == Signed(value + Sum(cs))
    decreases cs
  {
    if cs == [] {
      SignedSame(value, value);
    } else {
      var v := Adjusted(value, true, cs[0].delta);
      IncrementsAddUp(v, cs[1..]);
      Congruent(value + cs[0].delta, v, Sum(cs[1..]));
      SignedSame(v + Sum(cs[1..]), value + cs[0].delta + Sum(cs[1..]));
    }
  }

  /** Decrements take their sum away, but never below 0. */
  lemma {:induction false} DecrementsStopAtZero(value: int, cs: seq<Change>)
    requires -WORD / 2 <= value < WORD / 2 && (value >= 0 || cs != [])
    requires forall i :: 0 <= i < |cs| ==> !cs[i].incr && cs[i].delta >= 0
    ensures Sum(cs) >= 0 && AllOnNumber(value, cs) == if value > Sum(cs) then value - Sum(cs) else 0
    decreases cs
  {
    if cs != [] {
      var v := Adjusted(value, false, cs[0].delta);
      if value > cs[0].delta { SignedSame(value - cs[0].delta, value - cs[0].delta); }
      DecrementsStopAtZero(v, cs[1..]);
    }
  }

  lemma SignedSame(a: int, b: int)
    requires a % WORD == b % WORD
    ensures Signed(a) == Signed(b) && (-WORD / 2 <= a < WORD / 2 ==> Signed(a) == a)
  {
  }

  lemma Congruent(a: int, b: int, c: int)
    requires a % WORD == b % WORD
    ensures (a + c) % WORD == (b + c) % WORD
  {
    var q := a / WORD - b / WORD;
    assert a == b + q * WORD;
    Shifted(b + c, q);
  }

  lemma Shifted(n: int, q: int)
    ensures (n + q * WORD) % WORD == n % WORD
  {
    assert n == (n / WORD) * WORD + n % WORD;
    assert n + q * WORD == (n / WORD + q) * WORD + n % WORD;
  }

  // ----- in the cache

  /** incr or decr of a linked item: its entry's data is the text of the new number and reads so. */
  lemma DeltaCounts(s: State, x: Item, incr: bool, delta: int, cfg: Config, a: Memory)
    requires Inv(s) && Configured(cfg) && FreshMemory(s, a) && s.refs[x] > 0 && x in s.items && s.items[x].linked
    requires EndsLine(s.items[x].data) && ReadNumber(s.items[x].data).Some?
    ensures var value := Adjusted(ReadNumber(s.items[x].data).value, incr, delta);
            var (t, ok) := Delta(s, x, Text(value), cfg, a);
            var k := ConvertKey(s.items[x].key, s.behind);
            ok ==> k in Contents(t) && EndsLine(Contents(t)[k].data) && ReadNumber(Contents(t)[k].data) == Some(value)
  {
    hide Inv, Alloc, Contents, ConvertKey, FreshMemory, ReadNumber, Text, Delta, Patched, EndsLine;
    var r := s.items[x];
    ReadsSigned(r.data);
    var value := Adjusted(ReadNumber(r.data).value, incr, delta);
    RewrittenReads(r.data, value);
    DeltaEffect(s, x, Text(value), cfg, a);
  }
}
