/** What clients send and what the command layer gets: the automaton of ConnIn undoes the writing of requests. */
module ConnRequests {
  import opened Sequences
  import opened ConnIn

  /** A command word: not empty and on one line. */
  predicate OneLine(w: string) { w != [] && '\n' !in w }

  /** At the start of a line, a command with carriage return and newline is handed over as it is. */
  lemma CommandRead(decide: Decide, s: string, w: string)
    requires Parsed(decide, s).mode == InLine([]) && OneLine(w)
    ensures Parsed(decide, s + w + "\r\n") == AfterLine(decide, Parsed(decide, s).events + [Line(w)])
  {
    hide Parsed, AfterLine;
    var line := w + "\r";
    assert s + w + "\r\n" == s + line + ['\n'];
    assert line[|line| - 1] == '\r' && line[..|line| - 1] == w;
    LineEnds(decide, s, line);
  }

  /** A newline alone does as well, if the command does not end in a carriage return itself. */
  lemma PlainCommandRead(decide: Decide, s: string, w: string)
    requires Parsed(decide, s).mode == InLine([]) && '\n' !in w && (w == [] || w[|w| - 1] != '\r')
    ensures Parsed(decide, s + w + "\n") == AfterLine(decide, Parsed(decide, s).events + [Line(w)])
  {
    hide Parsed, AfterLine;
    assert "\n" == ['\n'];
    LineEnds(decide, s, w);
  }

  /** A carriage return that is all there is stays. */
  lemma ReturnRead(decide: Decide, s: string)
    requires Parsed(decide, s).mode == InLine([])
    ensures Parsed(decide, s + "\r\n") == AfterLine(decide, Parsed(decide, s).events + [Line("\r")])
  {
    hide Parsed, AfterLine;
    assert s + "\r\n" == s + "\r" + ['\n'];
    LineEnds(decide, s, "\r");
  }

  /** A command and the bytes that follow it. */
  datatype Request = Request(word: string, rest: string)

  function Written(rs: seq<Request>): string {
    if rs == [] then [] else rs[0].word + "\r\n" + rs[0].rest + Written(rs[1..])
  }

  /** What the command layer is to get, after the events in log. */
  function Handed(decide: Decide, log: seq<Event>, rs: seq<Request>): seq<Event>
    decreases rs
  {
    if rs == [] then log
    else
      var line := log + [Line(rs[0].word)];
      Handed(decide, if decide(line).Expect? then line + [Block(rs[0].rest)] else line, rs[1..])
  }

  /** Behind a command come as many bytes as it announces, and nothing comes behind a quit. */
  predicate WellSent(decide: Decide, log: seq<Event>, rs: seq<Request>)
    decreases rs
  {
    rs == [] || (
      var line := log + [Line(rs[0].word)];
      && OneLine(rs[0].word)
      && (match decide(line)
          case Stay => rs[0].rest == []
          case Reply => rs[0].rest == []
          case Expect(n) => |rs[0].rest| == n
          case Discard(n) => |rs[0].rest| == n
          case Quit => rs[0].rest == [] && |rs| == 1)
      && WellSent(decide, if decide(line).Expect? then line + [Block(rs[0].rest)] else line, rs[1..]))
  }

  /** Whatever requests are sent, exactly they are handed over: their lines, and the blocks that were announced. */
  lemma {:induction false} RequestsRead(decide: Decide, s: string, log: seq<Event>, rs: seq<Request>)
    requires Parsed(decide, s) == Parse(log, InLine([])) && WellSent(decide, log, rs)
    ensures Parsed(decide, s + Written(rs)).events == Handed(decide, log, rs)
    decreases rs
  {
    hide Parsed;
    if rs == [] {
      assert s + [] == s;
    } else {
      var line := log + [Line(rs[0].word)];
      var t := s + rs[0].word + "\r\n";
      CommandRead(decide, s, rs[0].word);
      assert s + Written(rs) == t + rs[0].rest + Written(rs[1..]);
      match decide(line) {
        case Stay =>
          assert t + [] == t;
          RequestsRead(decide, t, line, rs[1..]);
        case Reply =>
          assert t + [] == t;
          RequestsRead(decide, t, line, rs[1..]);
        case Expect(n) =>
          DataGoesOn(decide, t, line, n, [], rs[0].rest);
          assert [] + rs[0].rest == rs[0].rest;
          RequestsRead(decide, t + rs[0].rest, line + [Block(rs[0].rest)], rs[1..]);
        case Discard(n) =>
          SkipGoesOn(decide, t, line, n, rs[0].rest);
          RequestsRead(decide, t + rs[0].rest, line, rs[1..]);
        case Quit =>
          assert rs[1..] == [] && t + [] + [] == t;
      }
    }
  }

  function Lines(words: seq<string>): seq<Event> { seq(|words|, i requires 0 <= i < |words| => Line(words[i])) }

  function Sent(words: seq<string>): string { if words == [] then [] else words[0] + "\r\n" + Sent(words[1..]) }

  /** Commands without data: the words sent are the lines handed over. */
  lemma {:induction false} WordsRead(decide: Decide, s: string, words: seq<string>)
    requires forall events :: decide(events).Stay? || decide(events).Reply?
    requires Parsed(decide, s).mode == InLine([]) && forall i :: 0 <= i < |words| ==> OneLine(words[i])
    ensures Parsed(decide, s + Sent(words)) == Parse(Parsed(decide, s).events + Lines(words), InLine([]))
    decreases words
  {
    hide Parsed, Lines;
    if words == [] {
      assert s + [] == s;
      LinesNone();
    } else {
      CommandRead(decide, s, words[0]);
      var t := s + words[0] + "\r\n";
      assert s + Sent(words) == t + Sent(words[1..]);
      WordsRead(decide, t, words[1..]);
      LinesFirst(words);
      Assoc(Parsed(decide, s).events, [Line(words[0])], Lines(words[1..]));
    }
  }

  lemma LinesNone()
    ensures forall events: seq<Event> :: events + Lines([]) == events
  {
  }

  lemma LinesFirst(words: seq<string>)
    requires words != []
    ensures Lines(words) == [Line(words[0])] + Lines(words[1..])
  {
  }
}
