/** Splitting a command line into tokens in place, a few at a time, as the get loop does. */
module Tokenizer {
  import opened Wrappers

  /** A token as a stretch of the command buffer. */
  datatype Token = Token(value: nat, length: nat)

  // ----- the split of a string on spaces

  function Flush(cur: string): seq<string> { if cur == [] then [] else [cur] }

  /** The words of s, when cur is the part of a word already read. */
  function Words(cur: string, s: string): seq<string>
    decreases s
  {
    if s == [] then Flush(cur)
    else if s[0] == ' ' then Flush(cur) + Words([], s[1..])
    else Words(cur + [s[0]], s[1..])
  }

  function Split(s: string): seq<string> { Words([], s) }

  predicate IsWord(w: string) { w != [] && ' ' !in w }

  function Joined(words: seq<string>): string {
    if words == [] then [] else words[0] + [' '] + Joined(words[1..])
  }

  lemma {:induction false} WordsOfPrefix(cur: string, w: string, s: string)
    requires ' ' !in w
    ensures Words(cur, w + s) == Words(cur + w, s)
    decreases w
  {
    if w == [] {
      assert w + s == s && cur + w == cur;
    } else {
      assert (w + s)[1..] == w[1..] + s;
      assert cur + [w[0]] + w[1..] == cur + w;
      WordsOfPrefix(cur + [w[0]], w[1..], s);
    }
  }

  /** Split undoes joining with spaces, for every list of words. */
  lemma {:induction false} SplitOfJoined(words: seq<string>)
    requires forall w :: w in words ==> IsWord(w)
    ensures Split(Joined(words)) == words
  {
    if words != [] {
      var w, rest := words[0], Joined(words[1..]);
      assert w in words;
      assert Joined(words) == w + ([' '] + rest);
      WordsOfPrefix([], w, [' '] + rest);
      assert [] + w == w;
      assert ([' '] + rest)[1..] == rest;
      SplitOfJoined(words[1..]);
    }
  }

  /** Splitting goes part by part: a space anywhere separates, and more of them do no more. */
  lemma {:induction false} SplitAtSpace(cur: string, s: string, t: string)
    ensures Words(cur, s + [' '] + t) == Words(cur, s) + Split(t)
    decreases s
  {
    if s == [] {
      assert s + [' '] + t == [' '] + t && ([' '] + t)[1..] == t;
    } else {
      assert (s + [' '] + t)[1..] == s[1..] + [' '] + t;
      if s[0] == ' ' {
        SplitAtSpace([], s[1..], t);
        assert Flush(cur) + (Words([], s[1..]) + Split(t)) == Flush(cur) + Words([], s[1..]) + Split(t);
      } else {
        SplitAtSpace(cur + [s[0]], s[1..], t);
      }
    }
  }

  /** One character of progress, with the word read so far at text[a..b]. */
  lemma WordsStep(text: string, a: nat, b: nat, done: seq<string>)
    requires a <= b <= |text|
    ensures b == |text| ==> done + Words(text[a..b], text[b..]) == done + Flush(text[a..b])
    ensures b < |text| && text[b] == ' ' ==>
              done + Words(text[a..b], text[b..]) ==
                  (done + Flush(text[a..b])) + Words(text[b + 1..b + 1], text[b + 1..])
    ensures b < |text| && text[b] != ' ' ==>
              done + Words(text[a..b], text[b..]) == done + Words(text[a..b + 1], text[b + 1..])
  {
    if b < |text| {
      assert text[b..][1..] == text[b + 1..];
      assert text[a..b] + [text[b]] == text[a..b + 1];
      assert text[b + 1..b + 1] == [];
    }
  }

  /** Only words come out of a split. */
  lemma {:induction false} SplitGivesWords(cur: string, s: string)
    requires ' ' !in cur
    ensures forall w :: w in Words(cur, s) ==> IsWord(w)
    decreases s
  {
    if s != [] {
      SplitGivesWords(if s[0] == ' ' then [] else cur + [s[0]], s[1..]);
    }
  }

  // ----- C strings in a buffer

  /** text stands at start and is closed by a NUL. */
  ghost predicate StringAt(b: seq<char>, start: nat, text: string) {
    start + |text| < |b| && b[start..start + |text|] == text && '\0' !in text && b[start + |text|] == '\0'
  }

  function TextOf(b: seq<char>, k: Token): string
    requires k.value + k.length <= |b|
  {
    b[k.value..k.value + k.length]
  }

  ghost predicate Spells(b: seq<char>, tokens: seq<Token>, words: seq<string>) {
    |tokens| == |words| &&
    forall i :: 0 <= i < |tokens| ==> tokens[i].value + tokens[i].length <= |b| && TextOf(b, tokens[i]) == words[i]
  }

  /** Midway: tokens and words are what is read, text[s..e] a word begun, and the rest is untouched. */
  ghost predicate Reading(b: seq<char>, start: nat, text: string, s: nat, e: nat, tokens: seq<Token>,
      words: seq<string>) {
    && start <= s <= e <= start + |text| < |b| && '\0' !in text && b[start + |text|] == '\0'
    && Spells(b, tokens, words)
    && (forall i :: 0 <= i < |tokens| ==> tokens[i].value + tokens[i].length <= s)
    && b[s..start + |text|] == text[s - start..]
    && words + Words(text[s - start..e - start], text[e - start..]) == Split(text)
  }

  lemma Begin(b: seq<char>, start: nat, text: string)
    requires StringAt(b, start, text)
    ensures Reading(b, start, text, start, start, [], [])
  {
    assert text[0..0] == [] && text[0..] == text;
  }

  lemma Peek(b: seq<char>, start: nat, text: string, s: nat, e: nat, tokens: seq<Token>, words: seq<string>)
    requires Reading(b, start, text, s, e, tokens, words)
    ensures e < |b| && e <= start + |text| && b[e] == if e == start + |text| then '\0' else text[e - start]
  {
    if e < start + |text| {
      assert b[e] == b[s..start + |text|][e - s] == text[s - start..][e - s];
    }
  }

  lemma EmittedText(b: seq<char>, c: seq<char>, start: nat, text: string, s: nat, e: nat)
    requires start <= s <= e <= start + |text| < |b| && b[s..start + |text|] == text[s - start..]
    requires c == b || c == b[e := '\0']
    ensures e <= |c| && c[s..e] == text[s - start..e - start]
  {
    assert c[s..e] == b[s..e];
    assert b[s..e] == b[s..start + |text|][..e - s];
    assert text[s - start..e - start] == text[s - start..][..e - s];
  }

  /** A word ends at e; c is the buffer with or without the space there overwritten. */
  lemma Emit(b: seq<char>, c: seq<char>, start: nat, text: string, s: nat, e: nat, tokens: seq<Token>,
      words: seq<string>)
    requires Reading(b, start, text, s, e, tokens, words) && s < e && (c == b || c == b[e := '\0'])
    ensures Spells(c, tokens + [Token(s, e - s)], words + [text[s - start..e - start]])
  {
    hide Words;
    EmittedText(b, c, start, text, s, e);
    forall i | 0 <= i < |tokens|
      ensures TextOf(c, tokens[i]) == words[i]
    {
      assert TextOf(c, tokens[i]) == TextOf(b, tokens[i]);
    }
  }

  lemma AtSpace(b: seq<char>, start: nat, text: string, s: nat, e: nat, tokens: seq<Token>, words: seq<string>)
    requires Reading(b, start, text, s, e, tokens, words) && e < start + |text| && text[e - start] == ' '
    ensures s == e ==> Reading(b, start, text, e + 1, e + 1, tokens, words)
    ensures s < e ==>
              Reading(b[e := '\0'], start, text, e + 1, e + 1, tokens + [Token(s, e - s)],
                  words + [text[s - start..e - start]])
  {
    hide Words;
    WordsStep(text, s - start, e - start, words);
    Peek(b, start, text, s, e, tokens, words);
    var c := if s < e then b[e := '\0'] else b;
    Suffix(b, c, start, text, s, e);
    if s < e {
      Emit(b, c, start, text, s, e, tokens, words);
    } else {
      assert words + Flush(text[s - start..e - start]) == words;
    }
  }

  lemma Suffix(b: seq<char>, c: seq<char>, start: nat, text: string, s: nat, e: nat)
    requires start <= s <= e < start + |text| < |b| && b[s..start + |text|] == text[s - start..] &&
             (c == b || c == b[e := '\0'])
    ensures c[e + 1..start + |text|] == text[e + 1 - start..]
  {
    assert b[e + 1..start + |text|] == b[s..start + |text|][e + 1 - s..] == text[s - start..][e + 1 - s..];
  }

  lemma AtLetter(b: seq<char>, start: nat, text: string, s: nat, e: nat, tokens: seq<Token>, words: seq<string>)
    requires Reading(b, start, text, s, e, tokens, words) && e < start + |text| && text[e - start] != ' '
    ensures Reading(b, start, text, s, e + 1, tokens, words)
  {
    hide Words;
    WordsStep(text, s - start, e - start, words);
  }

  lemma AtEnd(b: seq<char>, start: nat, text: string, s: nat, e: nat, tokens: seq<Token>, words: seq<string>)
    requires Reading(b, start, text, s, e, tokens, words) && e == start + |text|
    ensures s == e ==> Spells(b, tokens, words) && words == Split(text)
    ensures s < e ==>
              && Spells(b, tokens + [Token(s, e - s)], words + [text[s - start..e - start]])
              && words + [text[s - start..e - start]] == Split(text)
  {
    hide Words;
    WordsStep(text, s - start, e - start, words);
    if s < e {
      Emit(b, b, start, text, s, e, tokens, words);
    }
  }

  lemma AtLimit(b: seq<char>, start: nat, text: string, e: nat, tokens: seq<Token>, words: seq<string>)
    requires Reading(b, start, text, e, e, tokens, words)
    ensures Spells(b, tokens, words) && words + Split(text[e - start..]) == Split(text)
    ensures StringAt(b, e, text[e - start..])
  {
    assert text[e - start..e - start] == [];
    assert e + |text[e - start..]| == start + |text|;
  }

  /**
   tokenize_command: at most maxTokens - 1 tokens, the space after each overwritten by a NUL, and
   the first unread character, if any.
   */
  method TokenizeCommand(buf: array<char>, start: nat, maxTokens: nat, ghost text: string)
    returns (tokens: seq<Token>, rest: Option<nat>, ghost words: seq<string>)
    requires StringAt(buf[..], start, text) && maxTokens > 1
    modifies buf
    ensures Spells(buf[..], tokens, words) && |tokens| <= maxTokens - 1
    ensures match rest
            case None => words == Split(text)
            case Some(e) =>
              && start < e < start + |text| && StringAt(buf[..], e, text[e - start..])
              && |tokens| == maxTokens - 1 && words + Split(text[e - start..]) == Split(text)
    ensures forall i :: 0 <= i < buf.Length && !(start <= i < start + |text|) ==> buf[i] == old(buf[i])
  {
    hide Reading, Spells, Split;
    tokens, words := [], [];
    var s, e := start, start;
    Begin(buf[..], start, text);
    while |tokens| < maxTokens - 1
      invariant start <= s <= e <= start + |text| && |tokens| <= maxTokens - 1
      invariant |tokens| == maxTokens - 1 ==> s == e && start < e
      invariant Reading(buf[..], start, text, s, e, tokens, words)
      invariant forall i :: 0 <= i < buf.Length && !(start <= i < start + |text|) ==> buf[i] == old(buf[i])
      decreases start + |text| - e
    {
      Peek(buf[..], start, text, s, e, tokens, words);
      assert e < start + |text| ==> text[e - start] in text;
      if buf[e] == ' ' {
        AtSpace(buf[..], start, text, s, e, tokens, words);
        if s != e {
          ghost var before := buf[..];
          buf[e] := '\0';
          assert buf[..] == before[e := '\0'];
          tokens, words := tokens + [Token(s, e - s)], words + [text[s - start..e - start]];
        }
        s := e + 1;
      } else if buf[e] == '\0' {
        AtEnd(buf[..], start, text, s, e, tokens, words);
        if s != e {
          tokens, words := tokens + [Token(s, e - s)], words + [text[s - start..e - start]];
        }
        return tokens, None, words;
      } else {
        AtLetter(buf[..], start, text, s, e, tokens, words);
      }
      e := e + 1;
    }
    AtLimit(buf[..], start, text, e, tokens, words);
    Peek(buf[..], start, text, s, e, tokens, words);
    if e < start + |text| {
      assert text[e - start] in text;
    } else {
      AtEnd(buf[..], start, text, s, e, tokens, words);
    }
    rest := if buf[e] == '\0' then None else Some(e);
  }

  /** The loop of the get command: batch after batch, until nothing is left to read. */
  method TokenizeAll(buf: array<char>, start: nat, maxTokens: nat, ghost text: string) returns (words: seq<string>)
    requires StringAt(buf[..], start, text) && maxTokens > 1
    modifies buf
    ensures words == Split(text)
  {
    hide StringAt, Split;
    words := [];
    var at := Some(start);
    ghost var left := text;
    while at.Some?
      invariant at.Some? ==> StringAt(buf[..], at.value, left) && words + Split(left) == Split(text)
      invariant at.None? ==> words == Split(text)
      decreases at.Some?, |left|
    {
      var tokens, rest, batch := TokenizeCommand(buf, at.value, maxTokens, left);
      var i := 0;
      ghost var done := words;
      while i < |tokens|
        invariant 0 <= i <= |tokens| == |batch| && words == done + batch[..i]
      {
        assert batch[..i + 1] == batch[..i] + [batch[i]];
        words := words + [buf[tokens[i].value..tokens[i].value + tokens[i].length]];
        i := i + 1;
      }
      assert batch[..|batch|] == batch;
      left := if rest.Some? then left[rest.value - at.value..] else "";
      at := rest;
    }
  }
}
