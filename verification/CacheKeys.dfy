/**
 Items are filed under the number their key spells, read from a buffer without a terminator.  Exactly
 which keys share their number with no other key, exactly which do not depend on what lies behind the
 buffer, and that no key does both.
 */
module CacheKeys {
  import opened CacheSpec

  const KEY_LENGTH := 16

  predicate Numeric(s: string) { forall i :: 0 <= i < |s| ==> IsDigit(s[i]) }

  /** Digits without a leading zero, all of them or after a minus sign. */
  predicate Unambiguous(key: string) {
    && |key| == KEY_LENGTH
    && ((Numeric(key) && key[0] != '0') || (key[0] == '-' && Numeric(key[1..]) && key[1] != '0'))
  }

  function Power10(n: nat): (p: nat)
    ensures p > 0
  {
    if n == 0 then 1 else 10 * Power10(n - 1)
  }

  // ----- how large a number a text can spell

  /** The last digit counts once, the ones before it ten times. */
  lemma {:induction false} DigitsLast(s: string, d: char, acc: nat)
    requires Numeric(s) && IsDigit(d)
    ensures Digits(s + [d], acc) == 10 * Digits(s, acc) + DigitValue(d)
    decreases |s|
  {
    if s == [] {
      assert s + [d] == [d] && [d][1..] == [];
    } else {
      assert (s + [d])[1..] == s[1..] + [d];
      DigitsLast(s[1..], d, 10 * acc + DigitValue(s[0]));
    }
  }

  /** Without a leading zero the number of digits shows in the number. */
  lemma {:induction false} DigitsSize(s: string)
    requires Numeric(s)
    ensures Digits(s, 0) < Power10(|s|)
    ensures s != [] && s[0] != '0' ==> Digits(s, 0) >= Power10(|s| - 1)
    decreases |s|
  {
    if s != [] {
      var n := |s| - 1;
      DigitsSize(s[..n]);
      DigitsLast(s[..n], s[n], 0);
      assert s[..n] + [s[n]] == s;
    }
  }

  lemma {:induction false} DigitsInjective(s: string, t: string)
    requires Numeric(s) && Numeric(t) && |s| == |t| && Digits(s, 0) == Digits(t, 0)
    ensures s == t
    decreases |s|
  {
    if s != [] {
      var n := |s| - 1;
      assert s[..n] + [s[n]] == s && t[..n] + [t[n]] == t;
      DigitsLast(s[..n], s[n], 0);
      DigitsLast(t[..n], t[n], 0);
      DigitsInjective(s[..n], t[..n]);
    }
  }

  lemma {:induction false} FirstNonDigit(s: string) returns (j: nat)
    requires !Numeric(s)
    ensures j < |s| && !IsDigit(s[j]) && Numeric(s[..j])
    decreases |s|
  {
    if !IsDigit(s[0]) {
      j := 0;
    } else {
      j := FirstNonDigit(s[1..]);
      assert s[..j + 1] == [s[0]] + s[1..][..j];
      j := j + 1;
    }
  }

  /** Reading stops at the first character that is no digit, whichever it is. */
  lemma {:induction false} DigitsStop(s: string, j: nat, acc: nat)
    requires j < |s| && !IsDigit(s[j]) && Numeric(s[..j])
    ensures Digits(s, acc) == Digits(s[..j], acc)
    decreases j
  {
    if j > 0 {
      assert s[..j][0] == s[0] && s[..j][1..] == s[1..][..j - 1];
      DigitsStop(s[1..], j - 1, 10 * acc + DigitValue(s[0]));
    }
  }

  lemma {:induction false} PowersRise(m: nat, n: nat)
    requires m <= n
    ensures Power10(m) <= Power10(n)
    decreases n
  {
    if m < n { PowersRise(m, n - 1); }
  }

  lemma DigitsBound(s: string)
    ensures Digits(s, 0) < Power10(|s|)
    ensures !Numeric(s) ==> Digits(s, 0) < Power10(|s| - 1)
  {
    if Numeric(s) {
      DigitsSize(s);
    } else {
      var j := FirstNonDigit(s);
      DigitsStop(s, j, 0);
      DigitsSize(s[..j]);
      PowersRise(j, |s| - 1);
      PowersRise(j, |s|);
    }
  }

  /** A character spent on anything but a digit makes the number shorter. */
  lemma {:induction false} AtolBound(t: string)
    ensures 0 - Power10(|t|) < Atol(t) < Power10(|t|)
    ensures t != [] && !IsDigit(t[0]) ==> 0 - Power10(|t| - 1) < Atol(t) < Power10(|t| - 1)
    decreases |t|
  {
    if t != [] {
      PowersRise(|t| - 1, |t|);
      if IsSpace(t[0]) {
        AtolBound(t[1..]);
      } else if t[0] == '-' || t[0] == '+' {
        DigitsBound(t[1..]);
      } else {
        DigitsBound(t);
      }
    }
  }

  lemma KeyRange(t: string)
    requires |t| <= KEY_LENGTH + 1
    ensures -0x7fff_ffff_ffff_ffff <= Atol(t) <= 0x7fff_ffff_ffff_ffff
  {
    AtolBound(t);
    PowersRise(|t|, KEY_LENGTH + 1);
    assert Power10(4) == 10_000 && Power10(8) == 100_000_000 && Power10(12) == 1_000_000_000_000;
    assert Power10(17) == 100_000_000_000_000_000;
  }

  lemma SameNumber(s: string, b: string, t: string, c: string)
    requires |s + b| <= KEY_LENGTH + 1 && |t + c| <= KEY_LENGTH + 1
    ensures ConvertKey(s, b) == ConvertKey(t, c) <==> Atol(s + b) == Atol(t + c)
  {
    KeyRange(s + b);
    KeyRange(t + c);
  }

  // ----- what lies behind the buffer

  predicate IsSign(c: char) { c == '-' || c == '+' }

  /** The reading ends inside the text: some character can no longer belong to the number. */
  predicate Stops(s: string) {
    if s == [] then false
    else if IsSpace(s[0]) then Stops(s[1..])
    else if IsSign(s[0]) then !Numeric(s[1..])
    else !Numeric(s)
  }

  /** A text that cannot go on a number: not a digit, a sign or a space. */
  predicate Quiet(behind: string) {
    behind == [] || !(IsDigit(behind[0]) || IsSign(behind[0]) || IsSpace(behind[0]))
  }

  predicate NoDigit(behind: string) { behind == [] || !IsDigit(behind[0]) }

  lemma NumericAppend(s: string, b: string)
    requires b != [] && !IsDigit(b[0]) && Numeric(s)
    ensures !Numeric(s + b) && Digits(s + b, 0) == Digits(s, 0)
  {
    assert (s + b)[|s|] == b[0] && (s + b)[..|s|] == s;
    DigitsStop(s + b, |s|, 0);
  }

  lemma StopsAppend(s: string, b: string)
    requires !Numeric(s)
    ensures Digits(s + b, 0) == Digits(s, 0)
  {
    var j := FirstNonDigit(s);
    assert (s + b)[j] == s[j] && (s + b)[..j] == s[..j];
    DigitsStop(s, j, 0);
    DigitsStop(s + b, j, 0);
  }

  /** Digits with something quiet or nothing to go on with, and digits that stop by themselves. */
  lemma DigitsTail(s: string, b: string)
    requires NoDigit(b) || !Numeric(s)
    ensures Digits(s + b, 0) == Digits(s, 0)
  {
    if !Numeric(s) {
      StopsAppend(s, b);
    } else if b == [] {
      assert s + b == s;
    } else {
      NumericAppend(s, b);
    }
  }

  /** Nothing quiet changes a number, and nothing at all changes one whose reading has stopped. */
  lemma {:induction false} AtolTail(s: string, b: string)
    requires Quiet(b) || Stops(s)
    ensures Atol(s + b) == Atol(s)
    decreases |s|
  {
    if s == [] {
      assert s + b == b;
      if b != [] { DigitsTail([], b); assert [] + b == b; }
    } else {
      assert (s + b)[1..] == s[1..] + b;
      if IsSpace(s[0]) {
        AtolTail(s[1..], b);
      } else if IsSign(s[0]) {
        DigitsTail(s[1..], b);
      } else {
        DigitsTail(s, b);
      }
    }
  }

  /** A text that has not stopped goes on with a digit behind it. */
  lemma {:induction false} AtolRunsOn(s: string)
    requires !Stops(s)
    ensures Atol(s + ['7']) != Atol(s)
    decreases |s|
  {
    if s == [] {
      assert s + ['7'] == ['7'] && ['7'][1..] == [];
      assert Digits(['7'], 0) == Digits([], 7);
    } else {
      assert (s + ['7'])[1..] == s[1..] + ['7'];
      if IsSpace(s[0]) {
        AtolRunsOn(s[1..]);
      } else if IsSign(s[0]) {
        DigitsLast(s[1..], '7', 0);
      } else {
        DigitsLast(s, '7', 0);
      }
    }
  }

  /** Exactly the keys whose reading stops inside have a number of their own, whatever lies behind the buffer. */
  lemma ReadAloneExact(key: string)
    requires |key| == KEY_LENGTH
    ensures Stops(key) <==> forall behind :: ConvertKey(key, behind) == ConvertKey(key, [])
  {
    assert key + [] == key;
    if Stops(key) {
      forall behind
        ensures ConvertKey(key, behind) == ConvertKey(key, [])
      {
        AtolTail(key, behind);
      }
    } else {
      AtolRunsOn(key);
      SameNumber(key, ['7'], key, []);
    }
  }

  lemma UnambiguousRunsOn(key: string)
    requires Unambiguous(key)
    ensures !Stops(key)
  {
    assert Numeric(key) ==> IsDigit(key[0]);
  }

  /** Unambiguous keys end in a digit, so a byte behind them that is no digit leaves them alone. */
  lemma UnambiguousTail(key: string, b: string)
    requires Unambiguous(key) && NoDigit(b)
    ensures ConvertKey(key, b) == ConvertKey(key, [])
  {
    assert key + [] == key;
    assert (key + b)[1..] == key[1..] + b && (key + b)[0] == key[0];
    if Numeric(key) {
      assert IsDigit(key[0]);
      DigitsTail(key, b);
    } else {
      DigitsTail(key[1..], b);
    }
  }

  // ----- what a text spells

  /** Digits with their places: the last counts once, each other ten times the one behind it. */
  function Value(s: string): nat
    requires Numeric(s)
  {
    if s == [] then 0 else DigitValue(s[0]) * Power10(|s| - 1) + Value(s[1..])
  }

  lemma {:induction false} DigitsValue(s: string, tail: string, acc: nat)
    requires Numeric(s) && NoDigit(tail)
    ensures Digits(s + tail, acc) == acc * Power10(|s|) + Value(s)
    decreases |s|
  {
    if s == [] {
      assert s + tail == tail;
    } else {
      assert (s + tail)[1..] == s[1..] + tail;
      var p, d := Power10(|s| - 1), DigitValue(s[0]);
      DigitsValue(s[1..], tail, 10 * acc + d);
      Carry(acc, d, p);
    }
  }

  lemma Carry(acc: nat, d: nat, p: nat)
    ensures (10 * acc + d) * p == acc * (10 * p) + d * p
  {
  }

  /** Spaces, a sign or none, digits, and anything that does not go on with a digit. */
  lemma {:induction false} AtolSpells(blanks: string, sign: string, digits: string, tail: string)
    requires (forall i :: 0 <= i < |blanks| ==> IsSpace(blanks[i])) && (sign == "" || sign == "+" || sign == "-")
    requires digits != [] && Numeric(digits) && NoDigit(tail)
    ensures Atol(blanks + sign + digits + tail) == if sign == "-" then 0 - Value(digits) else Value(digits)
    decreases |blanks|
  {
    var s := blanks + sign + digits + tail;
    if blanks != [] {
      assert s[1..] == blanks[1..] + sign + digits + tail;
      AtolSpells(blanks[1..], sign, digits, tail);
    } else {
      DigitsValue(digits, tail, 0);
      assert IsDigit(digits[0]);
      if sign == "" {
        assert s == digits + tail;
      } else {
        assert s[0] == sign[0] && s[1..] == digits + tail;
      }
    }
  }

  // ----- the keys that share their number with no other

  lemma PlainIsAlone(key: string, t: string)
    requires |key| == |t| && key != [] && Numeric(key) && key[0] != '0' && Atol(t) == Atol(key)
    ensures t == key
  {
    assert IsDigit(key[0]);
    DigitsSize(key);
    AtolBound(t);
    DigitsBound(t);
    DigitsInjective(key, t);
  }

  lemma NegativeIsAlone(key: string, t: string)
    requires |key| == |t| >= 2 && key[0] == '-' && Numeric(key[1..]) && key[1] != '0' && Atol(t) == Atol(key)
    ensures t == key
  {
    DigitsSize(key[1..]);
    assert key[1..][0] == key[1];
    if IsSpace(t[0]) {
      AtolBound(t[1..]);
    } else if t[0] == '-' {
      DigitsBound(t[1..]);
      DigitsInjective(key[1..], t[1..]);
      assert key == [key[0]] + key[1..] && t == [t[0]] + t[1..];
    }
  }

  /** Writing another non-digit where the reading stops leaves the number alone. */
  lemma StopsAnyway(s: string, j: nat, c: char, acc: nat)
    requires j < |s| && !IsDigit(s[j]) && !IsDigit(c) && Numeric(s[..j])
    ensures Digits(s[j := c], acc) == Digits(s, acc)
  {
    DigitsStop(s, j, acc);
    assert s[j := c][..j] == s[..j];
    DigitsStop(s[j := c], j, acc);
  }

  /** A key with any slack in its spelling has a double, whatever lies behind the buffer. */
  lemma Double(key: string, b: string) returns (t: string)
    requires |key| == KEY_LENGTH && !Unambiguous(key)
    ensures |t| == KEY_LENGTH && t != key && Atol(t + b) == Atol(key + b)
  {
    Rest(key, b);
    if IsSpace(key[0]) {
      t := key[0 := if key[0] == ' ' then '\t' else ' '];
      Rest(t, b);
      assert t[1..] == key[1..];
    } else if key[0] == '+' {
      t := key[0 := '0'];
      Rest(t, b);
      assert t[1..] == key[1..];
    } else if key[0] == '0' {
      t := key[0 := '+'];
      Rest(t, b);
      assert t[1..] == key[1..];
    } else if key[0] == '-' {
      t := NegativeDouble(key, b);
    } else {
      var j := FirstNonDigit(key);
      t := key[j := if key[j] == 'x' then 'y' else 'x'];
      Rest(t, b);
      StopsAlike(key, j, t[j], b);
    }
  }

  lemma Rest(s: string, b: string)
    requires s != []
    ensures (s + b)[1..] == s[1..] + b && (s + b)[0] == s[0]
  {
  }

  lemma StopsAlike(s: string, j: nat, c: char, b: string)
    requires j < |s| && !IsDigit(s[j]) && !IsDigit(c) && Numeric(s[..j])
    ensures Digits(s[j := c] + b, 0) == Digits(s + b, 0)
  {
    assert (s + b)[j] == s[j] && (s + b)[..j] == s[..j] && (s + b)[j := c] == s[j := c] + b;
    StopsAnyway(s + b, j, c, 0);
  }

  lemma NegativeDouble(key: string, b: string) returns (t: string)
    requires |key| == KEY_LENGTH && key[0] == '-' && !Unambiguous(key)
    ensures |t| == KEY_LENGTH && t != key && Atol(t + b) == Atol(key + b)
  {
    Rest(key, b);
    Rest(key[1..], b);
    if key[1] == '0' {
      t := " -" + key[2..];
      Rest(t, b);
      Rest(t[1..], b);
      assert t[1..][1..] == key[2..] && key[1..][1..] == key[2..];
    } else {
      var j := FirstNonDigit(key[1..]);
      var c := if key[1..][j] == 'x' then 'y' else 'x';
      t := key[j + 1 := c];
      Rest(t, b);
      assert t[1..] == key[1..][j := c];
      StopsAlike(key[1..], j, c, b);
    }
  }

  /** Filed under a number that no other key of sixteen bytes has. */
  ghost predicate Alone(key: string, behind: string) {
    forall t :: |t| == KEY_LENGTH && ConvertKey(t, behind) == ConvertKey(key, behind) ==> t == key
  }

  /**
   With something quiet behind the buffer, a key is filed apart from all others exactly if it is
   unambiguous; any other key never is, whatever lies behind.
   */
  lemma KeyExact(key: string, behind: string)
    requires |key| == KEY_LENGTH
    ensures Quiet(behind) ==> (Alone(key, behind) <==> Unambiguous(key))
    ensures Alone(key, behind) ==> Unambiguous(key)
  {
    if !Unambiguous(key) {
      var t := Double(key, behind);
    } else if Quiet(behind) {
      AtolTail(key, behind);
      forall t | |t| == KEY_LENGTH && ConvertKey(t, behind) == ConvertKey(key, behind)
        ensures t == key
      {
        AtolTail(t, behind);
        assert t + [] == t && key + [] == key;
        SameNumber(key, [], t, []);
        if Numeric(key) { PlainIsAlone(key, t); } else { NegativeIsAlone(key, t); }
      }
    }
  }

  /** As the code stands no key is both read alone and filed alone. */
  lemma NoKeyIsSafe(key: string)
    requires |key| == KEY_LENGTH
    ensures (exists behind :: ConvertKey(key, behind) != ConvertKey(key, [])) || (forall behind :: !Alone(key, behind))
  {
    hide Alone;
    ReadAloneExact(key);
    if Unambiguous(key) {
      UnambiguousRunsOn(key);
    } else {
      forall behind
        ensures !Alone(key, behind)
      {
        KeyExact(key, behind);
      }
    }
  }

  /** Two different keys of sixteen bytes under one number, whatever lies behind the buffer. */
  lemma KeysMixedUp(behind: string)
    ensures |"user:00000000001"| == |"user:00000000002"| == KEY_LENGTH && "user:00000000001" != "user:00000000002"
    ensures ConvertKey("user:00000000001", behind) == ConvertKey("user:00000000002", behind)
  {
    var s, t := "user:00000000001", "user:00000000002";
    assert s[15] != t[15];
    assert !IsDigit(s[0]) && !IsDigit(t[0]);
    AtolTail(s, behind);
    AtolTail(t, behind);
    assert Digits(s, 0) == 0 && Digits(t, 0) == 0;
  }
}
