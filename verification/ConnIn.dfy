/**
 The inbound half of a connection.  Bytes arrive from the socket in pieces of any size; the
 connection cuts them into command lines, data blocks and bytes to throw away.

 The reference is an automaton that looks at one byte at a time.  The connection works on a buffer
 that is moved, enlarged and shrunk, copies whole stretches, and reads straight past the buffer
 when it can; every method keeps it in step with the automaton.
 */
module ConnIn {
  import opened Sequences

  const DATA_BUFFER_SIZE := 2048
  const READ_BUFFER_HIGHWAT := 8192

  /** What is handed to the command layer. */
  datatype Event = Line(text: string) | Block(data: string)

  /** How process_command leaves the connection. */
  datatype Verdict = Stay | Reply | Expect(n: nat) | Discard(m: nat) | Quit

  /** The command layer: an arbitrary reaction to the events so far, the last being a line. */
  type Decide = seq<Event> -> Verdict

  // ----- the reference automaton

  datatype Mode = InLine(acc: string) | InBlock(left: nat, got: string) | Skipping(skip: nat) | Over

  datatype Parse = Parse(events: seq<Event>, mode: Mode)

  /** A line loses one carriage return at its end, unless that is all there is. */
  function Trim(line: string): string {
    if |line| > 1 && line[|line| - 1] == '\r' then line[..|line| - 1] else line
  }

  function InData(events: seq<Event>, left: nat, got: string): Parse {
    if left == 0 then Parse(events + [Block(got)], InLine([])) else Parse(events, InBlock(left, got))
  }

  function InSkip(events: seq<Event>, skip: nat): Parse {
    Parse(events, if skip == 0 then InLine([]) else Skipping(skip))
  }

  function AfterLine(decide: Decide, events: seq<Event>): Parse {
    match decide(events)
    case Stay => Parse(events, InLine([]))
    case Reply => Parse(events, InLine([]))
    case Expect(n) => InData(events, n, [])
    case Discard(n) => InSkip(events, n)
    case Quit => Parse(events, Over)
  }

  function Feed(decide: Decide, p: Parse, b: char): Parse {
    match p.mode
    case InLine(acc) =>
      if b == '\n' then AfterLine(decide, p.events + [Line(Trim(acc))]) else Parse(p.events, InLine(acc + [b]))
    case InBlock(left, got) => if left == 0 then p else InData(p.events, left - 1, got + [b])
    case Skipping(skip) => if skip == 0 then p else InSkip(p.events, skip - 1)
    case Over => p
  }

  /** The whole stream, byte by byte. */
  function Parsed(decide: Decide, s: string): Parse {
    if s == [] then Parse([], InLine([])) else Feed(decide, Parsed(decide, s[..|s| - 1]), s[|s| - 1])
  }

  lemma ParsedMore(decide: Decide, s: string, b: char)
    ensures Parsed(decide, s + [b]) == Feed(decide, Parsed(decide, s), b)
  {
    assert (s + [b])[..|s|] == s;
  }

  lemma Snoc(s: string, t: string)
    requires t != []
    ensures s + t == s + t[..|t| - 1] + [t[|t| - 1]]
  {
    assert t == t[..|t| - 1] + [t[|t| - 1]];
  }

  /** Events are never taken back. */
  lemma {:induction false} EventsGrow(decide: Decide, s: string, t: string)
    ensures Parsed(decide, s).events <= Parsed(decide, s + t).events
  {
    if t == [] {
      assert s + t == s;
    } else {
      var u := t[..|t| - 1];
      EventsGrow(decide, s, u);
      Snoc(s, t);
      ParsedMore(decide, s + u, t[|t| - 1]);
      FeedGrows(decide, Parsed(decide, s + u), t[|t| - 1]);
    }
  }

  lemma FeedGrows(decide: Decide, p: Parse, b: char)
    ensures p.events <= Feed(decide, p, b).events
  {
  }

  lemma {:induction false} LineGoesOn(decide: Decide, s: string, t: string)
    requires Parsed(decide, s).mode.InLine? && '\n' !in t
    ensures Parsed(decide, s + t) == Parse(Parsed(decide, s).events, InLine(Parsed(decide, s).mode.acc + t))
  {
    if t == [] {
      assert s + t == s;
    } else {
      var u, b := t[..|t| - 1], t[|t| - 1];
      LineGoesOn(decide, s, u);
      var acc := Parsed(decide, s).mode.acc;
      Snoc(s, t);
      Snoc(acc, t);
      ParsedMore(decide, s + u, b);
    }
  }

  lemma LineEnds(decide: Decide, s: string, line: string)
    requires Parsed(decide, s).mode == InLine([]) && '\n' !in line
    ensures Parsed(decide, s + line + ['\n']) == AfterLine(decide, Parsed(decide, s).events + [Line(Trim(line))])
  {
    LineGoesOn(decide, s, line);
    assert [] + line == line;
    ParsedMore(decide, s + line, '\n');
  }

  lemma {:induction false} DataGoesOn(decide: Decide, s: string, events: seq<Event>, left: nat, got: string, t: string)
    requires Parsed(decide, s) == InData(events, left, got) && |t| <= left
    ensures Parsed(decide, s + t) == InData(events, left - |t|, got + t)
  {
    if t == [] {
      assert s + t == s && got + t == got;
    } else {
      var u, b := t[..|t| - 1], t[|t| - 1];
      DataGoesOn(decide, s, events, left, got, u);
      Snoc(s, t);
      Snoc(got, t);
      ParsedMore(decide, s + u, b);
    }
  }

  lemma {:induction false} SkipGoesOn(decide: Decide, s: string, events: seq<Event>, skip: nat, t: string)
    requires Parsed(decide, s) == InSkip(events, skip) && |t| <= skip
    ensures Parsed(decide, s + t) == InSkip(events, skip - |t|)
  {
    if t == [] {
      assert s + t == s;
    } else {
      var u, b := t[..|t| - 1], t[|t| - 1];
      SkipGoesOn(decide, s, events, skip, u);
      Snoc(s, t);
      ParsedMore(decide, s + u, b);
    }
  }

  lemma {:induction false} OverStays(decide: Decide, s: string, t: string)
    requires Parsed(decide, s).mode == Over
    ensures Parsed(decide, s + t) == Parsed(decide, s)
  {
    if t == [] {
      assert s + t == s;
    } else {
      OverStays(decide, s, t[..|t| - 1]);
      Snoc(s, t);
      ParsedMore(decide, s + t[..|t| - 1], t[|t| - 1]);
    }
  }

  /** Inside a line, more bytes bring a new event exactly if a newline is among them. */
  lemma {:induction false} NewlineBringsEvent(decide: Decide, s: string, t: string)
    requires Parsed(decide, s).mode.InLine?
    ensures Parsed(decide, s + t).events == Parsed(decide, s).events <==> '\n' !in t
  {
    hide Parsed;
    if '\n' in t {
      var i := FirstNewline(t);
      LineGoesOn(decide, s, t[..i]);
      LineAdds(decide, s + t[..i]);
      NewlineSplit(s, t, i);
      EventsGrow(decide, s + t[..i] + ['\n'], t[i + 1..]);
    } else {
      LineGoesOn(decide, s, t);
    }
  }

  /** These bytes complete nothing: no line, no block. */
  predicate Silent(mode: Mode, t: string) {
    match mode
    case InLine(acc) => '\n' !in t
    case InBlock(left, got) => left == 0 || |t| < left
    case Skipping(skip) => skip == 0 || |t| <= skip || '\n' !in t[skip..]
    case Over => true
  }

  /** In every mode, more bytes bring a new event exactly if they complete something. */
  lemma SilentExact(decide: Decide, s: string, t: string)
    ensures Parsed(decide, s + t).events == Parsed(decide, s).events <==> Silent(Parsed(decide, s).mode, t)
  {
    hide Parsed;
    var p := Parsed(decide, s);
    match p.mode
    case InLine(acc) => NewlineBringsEvent(decide, s, t);
    case InBlock(left, got) =>
      if left == 0 {
        Stuck(decide, s, t);
      } else {
        BlockBringsEvent(decide, s, left, got, t);
      }
    case Skipping(skip) =>
      if skip == 0 {
        Stuck(decide, s, t);
      } else {
        SkipBringsEvent(decide, s, skip, t);
      }
    case Over => OverStays(decide, s, t);
  }

  lemma {:induction false} Stuck(decide: Decide, s: string, t: string)
    requires forall b :: Feed(decide, Parsed(decide, s), b) == Parsed(decide, s)
    ensures Parsed(decide, s + t) == Parsed(decide, s)
  {
    if t == [] {
      assert s + t == s;
    } else {
      Stuck(decide, s, t[..|t| - 1]);
      Snoc(s, t);
      ParsedMore(decide, s + t[..|t| - 1], t[|t| - 1]);
    }
  }

  lemma BlockBringsEvent(decide: Decide, s: string, left: nat, got: string, t: string)
    requires left > 0 && Parsed(decide, s).mode == InBlock(left, got)
    ensures Parsed(decide, s + t).events == Parsed(decide, s).events <==> |t| < left
  {
    hide Parsed;
    var events := Parsed(decide, s).events;
    if |t| < left {
      DataGoesOn(decide, s, events, left, got, t);
    } else {
      DataGoesOn(decide, s, events, left, got, t[..left]);
      Halves(s, t, left);
      EventsGrow(decide, s + t[..left], t[left..]);
    }
  }

  lemma SkipBringsEvent(decide: Decide, s: string, skip: nat, t: string)
    requires skip > 0 && Parsed(decide, s).mode == Skipping(skip)
    ensures Parsed(decide, s + t).events == Parsed(decide, s).events <==> |t| <= skip || '\n' !in t[skip..]
  {
    hide Parsed;
    var events := Parsed(decide, s).events;
    if |t| <= skip {
      SkipGoesOn(decide, s, events, skip, t);
    } else {
      SkipGoesOn(decide, s, events, skip, t[..skip]);
      Halves(s, t, skip);
      NewlineBringsEvent(decide, s + t[..skip], t[skip..]);
    }
  }

  lemma Halves(s: string, t: string, n: nat)
    requires n <= |t|
    ensures s + t == s + t[..n] + t[n..]
  {
    assert t == t[..n] + t[n..];
  }

  lemma NewlineSplit(s: string, t: string, i: nat)
    requires i < |t| && t[i] == '\n'
    ensures s + t == s + t[..i] + ['\n'] + t[i + 1..]
  {
    assert t == t[..i] + ['\n'] + t[i + 1..];
  }

  /** A newline inside a line adds at least that line. */
  lemma LineAdds(decide: Decide, s: string)
    requires Parsed(decide, s).mode.InLine?
    ensures |Parsed(decide, s + ['\n']).events| > |Parsed(decide, s).events|
  {
    ParsedMore(decide, s, '\n');
    hide Parsed;
  }

  lemma FirstNewline(t: string) returns (i: nat)
    requires '\n' in t
    ensures i < |t| && t[i] == '\n' && '\n' !in t[..i]
    decreases |t|
  {
    if t[0] == '\n' {
      i := 0;
    } else {
      assert t == [t[0]] + t[1..];
      i := FirstNewline(t[1..]);
      assert t[..i + 1] == [t[0]] + t[1..][..i];
      i := i + 1;
    }
  }

  // ----- the socket

  /** One answer of read(): bytes, nothing now, end of stream, another error. */
  datatype Answer = Bytes(data: string) | Again | Eof | Failed

  function Stream(script: seq<Answer>): string {
    if script == [] then [] else (if script[0].Bytes? then script[0].data else []) + Stream(script[1..])
  }

  /** The bytes that come before a read brings none. */
  function Upcoming(script: seq<Answer>): string {
    if script != [] && script[0].Bytes? && script[0].data != [] then script[0].data + Upcoming(script[1..]) else []
  }

  /** The answer that brings none. */
  function Ending(script: seq<Answer>): Answer {
    if script == [] then Again
    else if script[0] == Bytes([]) then Eof
    else if script[0].Bytes? then Ending(script[1..])
    else script[0]
  }

  /** One answer to a whole reply: it is out, it would block, or the connection is broken. */
  datatype SendAnswer = Sent | Blocked | Broken

  /** No request is refused. */
  predicate Generous(grants: seq<bool>) { forall i :: 0 <= i < |grants| ==> grants[i] }

  /**
   The system and the other side, as lists of answers to come.  Bytes that do not fit are kept for
   the next read; requests past the end of a list are granted.  faults counts ends of stream,
   errors and refusals, blocked the replies that would block, dry the reads that would.
   */
  class Socket {
    var script: seq<Answer>
    var sends: seq<SendAnswer>
    var grants: seq<bool>
    ghost var faults: nat
    ghost var blocked: nat
    ghost var dry: nat

    constructor (script: seq<Answer>, sends: seq<SendAnswer>, grants: seq<bool>)
      ensures this.script == script && this.sends == sends && this.grants == grants && faults == 0 && blocked == 0 &&
              dry == 0
    {
      this.script, this.sends, this.grants, faults, blocked, dry := script, sends, grants, 0, 0, 0;
    }

    /** Memory, or an event to wait for. */
    method Grant() returns (ok: bool)
      modifies this`grants, this`faults
      ensures faults == old(faults) + if ok then 0 else 1
      ensures Generous(old(grants)) ==> ok && Generous(grants)
    {
      ok := true;
      if grants != [] {
        ok, grants := grants[0], grants[1..];
      }
      if !ok {
        faults := faults + 1;
      }
    }

    method Send() returns (r: SendAnswer)
      modifies this`sends, this`faults, this`blocked
      ensures faults == old(faults) + if r == Broken then 1 else 0
      ensures blocked == old(blocked) + if r == Blocked then 1 else 0
    {
      r := Sent;
      if sends != [] {
        r, sends := sends[0], sends[1..];
      }
      if r == Broken {
        faults := faults + 1;
      } else if r == Blocked {
        blocked := blocked + 1;
      }
    }

    ghost function Weight(): nat
      reads this`script
    {
      2 * |Stream(script)| + |script|
    }

    method Read(n: nat) returns (res: Answer)
      requires n > 0
      modifies this`script, this`faults, this`dry
      ensures faults == old(faults) + if res == Eof || res == Failed then 1 else 0
      ensures dry == old(dry) + if res == Again then 1 else 0
      ensures res.Bytes? ==> 0 < |res.data| <= n && old(Stream(script)) == res.data + Stream(script)
      ensures res.Bytes? ==> Weight() + |res.data| < old(Weight())
      ensures !res.Bytes? ==> Stream(script) == old(Stream(script)) && Weight() <= old(Weight())
      ensures res == Eof ==> Weight() < old(Weight())
      ensures if res.Bytes? then Upcoming(old(script)) == res.data + Upcoming(script) &&
              Ending(script) == Ending(old(script))
              else Upcoming(old(script)) == [] && res == Ending(old(script))
    {
      if script == [] {
        dry := dry + 1;
        return Again;
      }
      res := script[0];
      if res.Bytes? && |res.data| > n {
        ghost var rest := [Bytes(res.data[n..])] + script[1..];
        assert rest[1..] == script[1..];
        script := [Bytes(res.data[n..])] + script[1..];
        res := Bytes(res.data[..n]);
      } else {
        script := script[1..];
        if res == Bytes([]) {
          res := Eof;
        }
        if res == Again {
          dry := dry + 1;
        } else if !res.Bytes? {
          faults := faults + 1;
        }
      }
    }
  }

  // ----- memory

  method Move(a: array<char>, from: nat, n: nat)
    requires from + n <= a.Length
    modifies a
    ensures a[..n] == old(a[from..from + n])
  {
    forall i | 0 <= i < n { a[i] := a[from + i]; }
  }

  method Resized(a: array<char>, size: nat, keep: nat) returns (b: array<char>)
    requires keep <= size && keep <= a.Length
    ensures fresh(b) && b.Length == size && b[..keep] == a[..keep]
  {
    b := new char[size];
    forall i | 0 <= i < keep { b[i] := a[i]; }
  }

  // ----- the connection

  datatype ConnState = Reading | NRead | Swallow | Writing | Closing

  /**
   The bytes consumed so far bring the automaton to where the connection is; the connection is
   only ever given up after a quit or a fault.
   */
  ghost predicate Tracks(decide: Decide, consumed: string, log: seq<Event>, state: ConnState, next: ConnState,
      rlbytes: nat, item: string, sbytes: nat, faults: nat) {
    var p := Parsed(decide, consumed);
    match state
    case Reading => p == Parse(log, InLine([]))
    case NRead => p == InData(log, rlbytes, item)
    case Swallow => p == InSkip(log, sbytes)
    case Writing => if next == Reading then p == Parse(log, InLine([])) else if next == Swallow
        then p == InSkip(log, sbytes) else next == Closing && p.events == log && faults > 0
    case Closing => p.events == log && (faults > 0 || p.mode == Over)
  }

  predicate Doomed(state: ConnState, next: ConnState) { state == Closing || (state == Writing && next == Closing) }

  class Conn {
    const decide: Decide
    const sfd: Socket
    var state: ConnState
    var writeAndGo: ConnState
    var rbuf: array<char>
    var rcurr: nat
    var rbytes: nat
    var rlbytes: nat
    var item: string
    var sbytes: nat
    var log: seq<Event>
    ghost var received: string
    ghost var consumed: string

    ghost predicate Framed()
      reads this`rbuf, this`rcurr, this`rbytes
    {
      rbuf.Length > 0 && rcurr + rbytes <= rbuf.Length
    }

    /** The bytes read and not yet consumed. */
    ghost function Buffered(): string
      reads this`rbuf, this`rcurr, this`rbytes, rbuf
      requires Framed()
    {
      rbuf[rcurr..rcurr + rbytes]
    }

    ghost predicate InStep()
      reads this`state, this`writeAndGo, this`rlbytes, this`item, this`sbytes, this`log, this`consumed, sfd`faults
    {
      Tracks(decide, consumed, log, state, writeAndGo, rlbytes, item, sbytes, sfd.faults)
    }

    ghost predicate Valid()
      reads this, rbuf, sfd`faults
    {
      && Framed() && InStep() && consumed <= received
      && (!Doomed(state, writeAndGo) ==> received == consumed + Buffered())
    }

    constructor (decide: Decide, sfd: Socket, size: nat)
      requires size > 0
      ensures Valid() && state == Reading && received == [] && this.decide == decide && this.sfd == sfd && fresh(rbuf)
    {
      this.decide, this.sfd := decide, sfd;
      state, writeAndGo := Reading, Reading;
      rbuf := new char[size];
      rcurr, rbytes, rlbytes, item, sbytes, log := 0, 0, 0, [], 0, [];
      received, consumed := [], [];
    }

    /** conn_shrink: a big buffer with little in it is cut down; what is in it stays. */
    method ConnShrink(granted: bool)
      requires Framed()
      modifies this`rbuf, this`rcurr, rbuf
      ensures Framed() && Buffered() == old(Buffered()) && (rbuf == old(rbuf) || fresh(rbuf))
      ensures rbuf.Length == if granted && old(rbuf.Length) > READ_BUFFER_HIGHWAT && rbytes < DATA_BUFFER_SIZE
              then DATA_BUFFER_SIZE else old(rbuf.Length)
    {
      if rbuf.Length > READ_BUFFER_HIGHWAT && rbytes < DATA_BUFFER_SIZE {
        if rcurr != 0 {
          Move(rbuf, rcurr, rbytes);
        }
        if granted {
          rbuf := Resized(rbuf, DATA_BUFFER_SIZE, rbytes);
        }
        rcurr := 0;
        assert Buffered() == rbuf[..rbytes];
      }
    }

    /** conn_set_state: the buffer may shrink on the way back to reading commands. */
    method SetState(next: ConnState)
      requires Framed()
      modifies this`state, this`rbuf, this`rcurr, rbuf
      ensures Framed() && Buffered() == old(Buffered()) && (rbuf == old(rbuf) || fresh(rbuf)) && state == next
    {
      if next != state {
        if next == Reading {
          var granted: bool := *;
          ConnShrink(granted);
        }
        state := next;
      }
    }

    /** memchr for a newline, n bytes from start. */
    method Memchr(start: nat, n: nat) returns (el: int)
      requires start + n <= rbuf.Length
      ensures el == -1 ==> '\n' !in rbuf[start..start + n]
      ensures el != -1 ==> start <= el < start + n && rbuf[el] == '\n' && '\n' !in rbuf[start..el]
    {
      var i := start;
      while i < start + n
        invariant start <= i <= start + n && forall k :: start <= k < i ==> rbuf[k] != '\n'
      {
        if rbuf[i] == '\n' {
          return i;
        }
        i := i + 1;
      }
      return -1;
    }

    /** process_command: the line is logged and the command layer says how to go on. */
    method ProcessCommand(line: string)
      requires state == Reading && Parsed(decide, consumed) == AfterLine(decide, log + [Line(line)])
      modifies this`state, this`writeAndGo, this`log, this`rlbytes, this`item, this`sbytes
      ensures InStep() && log == old(log) + [Line(line)] && !(state == Writing && writeAndGo == Closing)
    {
      log := log + [Line(line)];
      match decide(log)
      case Stay =>
      case Reply => state, writeAndGo := Writing, Reading;
      case Expect(n) => rlbytes, item, state := n, [], NRead;
      case Discard(n) => state, writeAndGo, sbytes := Writing, Swallow, n;
      case Quit => state := Closing;
    }

    /** The line that ends at k was handed over, less a carriage return at its end that is not all of it. */
    ghost predicate Took(buffered: string, before: seq<Event>, k: nat)
      reads this`rbuf, this`rcurr, this`rbytes, this`log, rbuf
      requires Framed() && k < |buffered|
    {
      && buffered[k] == '\n' && '\n' !in buffered[..k] && Buffered() == buffered[k + 1..]
      && log == before + [Line(if k > 1 && buffered[k - 1] == '\r' then buffered[..k - 1] else buffered[..k])]
    }

    /** try_read_command: hands over the first line of the buffer, if it is complete. */
    method TryReadCommand() returns (found: bool)
      requires Valid() && state == Reading
      modifies this`state, this`writeAndGo, this`log, this`rlbytes, this`item, this`sbytes, this`rcurr, this`rbytes,
               this`consumed, rbuf
      ensures Valid()
      ensures found <==> '\n' in old(Buffered())
      ensures found ==> rbytes < old(rbytes)
      ensures found ==> exists k :: 0 <= k < |old(Buffered())| && Took(old(Buffered()), old(log), k)
      ensures !found ==> state == Reading && log == old(log) && Buffered() == old(Buffered()) && rbytes == old(rbytes)
    {
      hide Parsed, AfterLine;
      if rbytes == 0 {
        return false;
      }
      var el := Memchr(rcurr, rbytes);
      if el == -1 {
        return false;
      }
      assert Buffered()[el - rcurr] == '\n' && Buffered()[..el - rcurr] == rbuf[rcurr..el];
      ghost var k, buffered := el - rcurr, Buffered();
      TakeLine(el);
      TrimIs(buffered, k);
      assert 0 <= k < |buffered| && Took(buffered, old(log), k);
      return true;
    }

    method TakeLine(end: nat)
      requires Valid() && state == Reading && rcurr <= end < rcurr + rbytes
      requires Buffered()[end - rcurr] == '\n' && '\n' !in Buffered()[..end - rcurr]
      requires Parsed(decide, consumed) == Parse(log, InLine([]))
      modifies this`state, this`writeAndGo, this`log, this`rlbytes, this`item, this`sbytes, this`rcurr, this`rbytes,
               this`consumed, rbuf
      ensures Valid() && rbytes < old(rbytes) && Buffered() == old(Buffered())[end + 1 - old(rcurr)..]
      ensures log == old(log) + [Line(Trim(old(Buffered())[..end - old(rcurr)]))]
    {
      hide Parsed, AfterLine, Tracks, Trim;
      ghost var k, buffered := end - rcurr, Buffered();
      LineCut(decide, received, consumed, buffered, log, k);
      TrimIs(buffered, k);
      var line := Terminate(end);
      HandOver(line, end + 1, buffered[..k + 1], buffered[k + 1..]);
    }

    /** The line is handed over, and the buffer goes on behind it. */
    method HandOver(line: string, cont: nat, ghost taken: string, ghost tail: string)
      requires state == Reading && Framed() && rcurr <= cont <= rcurr + rbytes && rbuf[cont..rcurr + rbytes] == tail
      requires Parsed(decide, consumed + taken) == AfterLine(decide, log + [Line(line)])
      requires received == consumed + taken + tail && consumed + taken <= received
      modifies this`state, this`writeAndGo, this`log, this`rlbytes, this`item, this`sbytes, this`rcurr, this`rbytes,
               this`consumed
      ensures Valid() && rbytes == old(rbytes) - (cont - old(rcurr)) && Buffered() == tail
      ensures log == old(log) + [Line(line)]
    {
      hide Parsed, AfterLine, Tracks;
      consumed := consumed + taken;
      ProcessCommand(line);
      rbytes := rbytes - (cont - rcurr);
      rcurr := cont;
    }

    /** Ends the line, less its carriage return, with a zero byte. */
    method Terminate(end: nat) returns (line: string)
      requires Framed() && rcurr <= end < rcurr + rbytes
      modifies rbuf
      ensures var k := end - rcurr;
              line == if k > 1 && old(Buffered())[k - 1] == '\r' then old(Buffered())[..k - 1] else old(Buffered())[..k]
      ensures rbuf[end + 1..rcurr + rbytes] == old(Buffered()[end + 1 - rcurr..])
    {
      var el := end;
      ghost var buffered := Buffered();
      assert end > rcurr ==> rbuf[end - 1] == buffered[end - 1 - rcurr];
      if el - rcurr > 1 && rbuf[el - 1] == '\r' {
        el := el - 1;
      }
      line := rbuf[rcurr..el];
      assert line == buffered[..el - rcurr];
      ghost var rest := rbuf[end + 1..rcurr + rbytes];
      assert rest == Buffered()[end + 1 - rcurr..];
      rbuf[el] := '\0';
      assert rbuf[end + 1..rcurr + rbytes] == rest;
    }

    /** One read() into the free end of the buffer. */
    method Fill() returns (res: Answer)
      requires Framed() && rcurr == 0 && rbytes < rbuf.Length
      modifies this`rbytes, this`received, rbuf, sfd`script, sfd`faults, sfd`dry
      ensures Framed() && sfd.faults == old(sfd.faults) + (if res == Eof || res == Failed then 1 else 0)
      ensures sfd.dry == old(sfd.dry) + if res == Again then 1 else 0
      ensures res.Bytes? ==>
              0 < |res.data| && Buffered() == old(Buffered()) + res.data && received == old(received) + res.data
      ensures res.Bytes? ==>
              old(Stream(sfd.script)) == res.data + Stream(sfd.script) &&
              sfd.Weight() + rbytes < old(sfd.Weight() + rbytes)
      ensures !res.Bytes? ==> Buffered() == old(Buffered()) && received == old(received) && rbytes == old(rbytes)
      ensures !res.Bytes? ==> Stream(sfd.script) == old(Stream(sfd.script)) && sfd.Weight() <= old(sfd.Weight())
      ensures res == Eof ==> sfd.Weight() < old(sfd.Weight())
      ensures if res.Bytes? then Upcoming(old(sfd.script)) == res.data + Upcoming(sfd.script) &&
                                 Ending(sfd.script) == Ending(old(sfd.script))
              else Upcoming(old(sfd.script)) == [] && res == Ending(old(sfd.script))
    {
      hide Upcoming, Ending;
      res := sfd.Read(rbuf.Length - rbytes);
      if res.Bytes? {
        var d := res.data;
        forall i | 0 <= i < |d| { rbuf[rbytes + i] := d[i]; }
        rbytes := rbytes + |d|;
        received := received + d;
      }
    }

    /** A full buffer doubles, if memory is granted. */
    method Grow() returns (ok: bool)
      requires Framed() && rcurr == 0
      modifies this`rbuf, sfd`grants, sfd`faults
      ensures Framed() && Buffered() == old(Buffered()) && (rbuf == old(rbuf) || fresh(rbuf))
      ensures rbytes < old(rbuf.Length) ==> ok && rbuf == old(rbuf)
      ensures ok ==> rbytes < rbuf.Length
      ensures !ok ==> rbytes > 0
      ensures sfd.faults == old(sfd.faults) + if ok then 0 else 1
      ensures Generous(old(sfd.grants)) ==> ok && Generous(sfd.grants)
    {
      ok := true;
      if rbytes >= rbuf.Length {
        ok := sfd.Grant();
        if ok {
          rbuf := Resized(rbuf, rbuf.Length * 2, rbytes);
        }
      }
    }

    /** What is left of a fragment moves to the front. */
    method MoveToFront()
      requires Framed()
      modifies this`rcurr, rbuf
      ensures Framed() && rcurr == 0 && Buffered() == old(Buffered())
    {
      if rcurr != 0 {
        if rbytes != 0 {
          Move(rbuf, rcurr, rbytes);
        }
        rcurr := 0;
      }
    }

    /** One turn of the loop of try_read_network: room for more bytes, and a read. */
    method ReadOnce() returns (denied: bool, last: Answer)
      requires Framed() && rcurr == 0
      modifies this`rbuf, this`rbytes, this`received, rbuf, sfd`script, sfd`grants, sfd`faults, sfd`dry
      ensures Framed() && (rbuf == old(rbuf) || fresh(rbuf))
      ensures sfd.faults == old(sfd.faults) + if denied || last == Eof || last == Failed then 1 else 0
      ensures sfd.dry == old(sfd.dry) + if !denied && last == Again then 1 else 0
      ensures denied ==> rbytes > 0 && last == Again
      ensures !denied && last.Bytes? ==>
                && Buffered() == old(Buffered()) + last.data && received == old(received) + last.data
                && old(Stream(sfd.script)) == last.data + Stream(sfd.script)
                && sfd.Weight() + rbytes < old(sfd.Weight() + rbytes)
      ensures denied || !last.Bytes? ==>
                && Buffered() == old(Buffered()) && received == old(received) && rbytes == old(rbytes)
                && Stream(sfd.script) == old(Stream(sfd.script)) && sfd.Weight() <= old(sfd.Weight())
      ensures !denied && last == Eof ==> sfd.Weight() < old(sfd.Weight())
      ensures Generous(old(sfd.grants)) ==> !denied && Generous(sfd.grants)
      ensures !denied && last.Bytes? ==>
                Upcoming(old(sfd.script)) == last.data + Upcoming(sfd.script) &&
                    Ending(sfd.script) == Ending(old(sfd.script))
      ensures !denied && !last.Bytes? ==> Upcoming(old(sfd.script)) == [] && last == Ending(old(sfd.script))
    {
      hide Stream, Upcoming, Ending, Generous;
      var room := Grow();
      if !room {
        return true, Again;
      }
      last := Fill();
      denied := false;
    }

    /** Reads until the socket has no more bytes or the buffer cannot grow. */
    method ReadAll() returns (got: bool, denied: bool, last: Answer, ghost more: string)
      requires Framed()
      modifies this`rbuf, this`rcurr, this`rbytes, this`received, rbuf, sfd`script, sfd`grants, sfd`faults, sfd`dry
      ensures Framed() && (rbuf == old(rbuf) || fresh(rbuf))
      ensures sfd.faults == old(sfd.faults) + if denied || last == Eof || last == Failed then 1 else 0
      ensures sfd.dry >= old(sfd.dry) && (!denied && last == Again ==> sfd.dry > old(sfd.dry))
      ensures Buffered() == old(Buffered()) + more && received == old(received) + more
      ensures more + Stream(sfd.script) == old(Stream(sfd.script))
      ensures if got then sfd.Weight() + rbytes < old(sfd.Weight() + rbytes)
              else more == [] && sfd.Weight() + rbytes <= old(sfd.Weight() + rbytes)
      ensures denied ==> rbytes > 0 && last != Eof && last != Failed
      ensures !denied ==> !last.Bytes? && (last == Eof ==> sfd.Weight() + rbytes < old(sfd.Weight() + rbytes))
      ensures !denied ==> more == Upcoming(old(sfd.script)) && last == Ending(old(sfd.script))
      ensures Generous(old(sfd.grants)) ==> !denied && Generous(sfd.grants)
    {
      hide Stream, Upcoming, Ending, Generous;
      ghost var coming := Upcoming(sfd.script);
      ghost var buffered, before, stream, weight := Buffered(), received, Stream(sfd.script), sfd.Weight() + rbytes;
      MoveToFront();
      got, denied, last, more := false, false, Again, [];
      while true
        invariant Framed() && rcurr == 0 && (rbuf == old(rbuf) || fresh(rbuf)) && sfd.faults == old(sfd.faults) &&
                  sfd.dry == old(sfd.dry) && last != Eof && last != Failed
        invariant Buffered() == buffered + more && received == before + more
        invariant more + Stream(sfd.script) == stream
        invariant more + Upcoming(sfd.script) == coming && Ending(sfd.script) == Ending(old(sfd.script))
        invariant Generous(old(sfd.grants)) ==> Generous(sfd.grants)
        invariant if got then sfd.Weight() + rbytes < weight else more == [] && sfd.Weight() + rbytes <= weight
        decreases sfd.Weight() + rbytes
      {
        denied, last := ReadOnce();
        if denied || !last.Bytes? {
          assert more + [] == more;
          return;
        }
        got := true;
        Assoc(buffered, more, last.data);
        Assoc(before, more, last.data);
        Assoc(more, last.data, Stream(sfd.script));
        Assoc(more, last.data, Upcoming(sfd.script));
        more := more + last.data;
      }
    }

    /** The reading part of try_read_network: whatever ends it, the bytes read are in the buffer. */
    method Receive() returns (got: bool, denied: bool, last: Answer)
      requires Valid() && state == Reading && '\n' !in Buffered()
      modifies this`rbuf, this`rcurr, this`rbytes, this`received,
               rbuf, sfd`script, sfd`grants, sfd`faults, sfd`dry
      ensures Valid() && (rbuf == old(rbuf) || fresh(rbuf))
      ensures sfd.faults == old(sfd.faults) + if denied || last == Eof || last == Failed then 1 else 0
      ensures sfd.dry >= old(sfd.dry) && (!denied && last == Again ==> sfd.dry > old(sfd.dry))
      ensures old(received) <= received && received + Stream(sfd.script) == old(received + Stream(sfd.script))
      ensures if got then sfd.Weight() + rbytes < old(sfd.Weight() + rbytes)
              else received == old(received) && Buffered() == old(Buffered()) &&
                   sfd.Weight() + rbytes <= old(sfd.Weight() + rbytes)
      ensures denied ==> rbytes > 0 && last != Eof && last != Failed
      ensures !denied ==> !last.Bytes? && (last == Eof ==> sfd.Weight() + rbytes < old(sfd.Weight() + rbytes))
      ensures log == Parsed(decide, received).events <==> '\n' !in received[|old(received)|..]
      ensures log == Parsed(decide, old(received)).events && Parsed(decide, consumed) == Parse(log, InLine([]))
      ensures !denied ==> received == old(received) + Upcoming(old(sfd.script)) && last == Ending(old(sfd.script))
      ensures Generous(old(sfd.grants)) ==> !denied && Generous(sfd.grants)
    {
      hide Parsed, Stream, Tracks, Upcoming, Ending, Generous;
      AtLineStart(decide, consumed, log, writeAndGo, rlbytes, item, sbytes, sfd.faults);
      ghost var before, buffered := received, Buffered();
      ghost var more;
      got, denied, last, more := ReadAll();
      Arrived(decide, consumed, buffered, before, more, Stream(sfd.script), received, log);
      GivesUp(decide, consumed, log, writeAndGo, rlbytes, item, sbytes, sfd.faults);
    }

    /**
     try_read_network: reads all that comes before a read brings nothing, unless the buffer cannot grow.
     At the end of the stream or of memory the connection is given up with all of it unparsed; nothing
     is lost exactly if it holds no newline.  After a failed read it stays in the buffer.
     */
    method TryReadNetwork() returns (got: bool, ghost last: Answer)
      requires Valid() && state == Reading && '\n' !in Buffered()
      modifies this`rbuf, this`rcurr, this`rbytes, this`state, this`writeAndGo, this`received,
               rbuf, sfd`script, sfd`grants, sfd`faults, sfd`dry
      ensures Valid() && (rbuf == old(rbuf) || fresh(rbuf)) && old(sfd.faults) <= sfd.faults
      ensures !got && last == Failed ==> old(sfd.faults) < sfd.faults
      ensures sfd.dry >= old(sfd.dry) && (!got && last == Again ==> sfd.dry > old(sfd.dry))
      ensures old(received) <= received && received + Stream(sfd.script) == old(received + Stream(sfd.script))
      ensures !got ==> state == Reading && (last == Again || last == Failed)
      ensures got ==> sfd.Weight() + rbytes < old(sfd.Weight() + rbytes)
      ensures !got && last == Again ==> received == old(received) && Buffered() == old(Buffered())
      ensures sfd.Weight() + rbytes <= old(sfd.Weight() + rbytes)
      ensures log == Parsed(decide, received).events <==> '\n' !in received[|old(received)|..]
      ensures log == Parsed(decide, old(received)).events
      ensures old(Generous(sfd.grants)) || !Doomed(state, writeAndGo) ==>
                received == old(received) + Upcoming(old(sfd.script)) && last == Ending(old(sfd.script)) &&
                (state == Closing <==> last == Eof)
      ensures last == Eof ==> state == Closing
      ensures Generous(old(sfd.grants)) ==> Generous(sfd.grants)
    {
      hide Parsed, Stream, Tracks, Upcoming, Ending, Generous;
      var denied, res;
      got, denied, res := Receive();
      last := res;
      GivesUp(decide, consumed, log, writeAndGo, rlbytes, item, sbytes, sfd.faults);
      if denied {
        rbytes := 0;
        state, writeAndGo := Writing, Closing;
        got := true;
      } else if res == Eof {
        state := Closing;
        got := true;
      } else if res == Failed {
        got := false;
      }
    }

    /** Bytes leave the front of the buffer, into the item or for good. */
    method Drop(n: nat)
      requires Framed() && n <= rbytes && received == consumed + Buffered()
      modifies this`rcurr, this`rbytes, this`consumed
      ensures Framed() && received == consumed + Buffered() && consumed <= received
      ensures consumed == old(consumed + Buffered()[..n]) && rbytes == old(rbytes) - n
    {
      ghost var buffered := Buffered();
      consumed := consumed + buffered[..n];
      rcurr := rcurr + n;
      rbytes := rbytes - n;
      assert buffered == buffered[..n] + Buffered();
    }

    /** A read() that passes the buffer by: the bytes are consumed at once. */
    method Bypass(n: nat) returns (res: Answer)
      requires Framed() && n > 0 && rbytes == 0 && received == consumed + Buffered()
      modifies this`received, this`consumed, sfd`script, sfd`faults, sfd`dry
      ensures sfd.faults == old(sfd.faults) + if res == Eof || res == Failed then 1 else 0
      ensures sfd.dry == old(sfd.dry) + if res == Again then 1 else 0
      ensures received == consumed && old(received) <= received &&
              received + Stream(sfd.script) == old(received + Stream(sfd.script))
      ensures res.Bytes? ==>
              0 < |res.data| <= n && consumed == old(consumed) + res.data && sfd.Weight() < old(sfd.Weight())
      ensures !res.Bytes? ==> consumed == old(consumed) && sfd.Weight() <= old(sfd.Weight())
    {
      hide Stream;
      assert Buffered() == [];
      res := sfd.Read(n);
      if res.Bytes? {
        Assoc(consumed, res.data, Stream(sfd.script));
        received := received + res.data;
        consumed := consumed + res.data;
      }
    }

    /** After a failed read the connection waits for more or closes. */
    method NoData(res: Answer) returns (stop: bool)
      requires Valid() && !res.Bytes? && (state == NRead ==> rlbytes > 0) && (res == Again || sfd.faults > 0)
      modifies this`state, sfd`grants, sfd`faults
      ensures Valid() && old(sfd.faults) <= sfd.faults
      ensures (stop ==> state == old(state) && res == Again) && (!stop ==> state == Closing)
    {
      if res == Again {
        stop := sfd.Grant();
        if stop {
          return;
        }
      }
      state := Closing;
      return false;
    }

    /** Leftovers of the buffer go to the item. */
    method CopyToItem()
      requires Valid() && state == NRead && rbytes > 0 && rlbytes > 0
      modifies this`rlbytes, this`item, this`rcurr, this`rbytes, this`consumed
      ensures Valid() && rbytes < old(rbytes)
    {
      hide Parsed, InData;
      var tocopy := if rbytes > rlbytes then rlbytes else rbytes;
      var copied := rbuf[rcurr..rcurr + tocopy];
      assert copied == Buffered()[..tocopy];
      DataGoesOn(decide, consumed, log, rlbytes, item, copied);
      item := item + copied;
      rlbytes := rlbytes - tocopy;
      Drop(tocopy);
    }

    /** conn_nread. */
    method StepNRead() returns (stop: bool, ghost last: Answer)
      requires Valid() && state == NRead
      modifies this`state, this`writeAndGo, this`log, this`rlbytes, this`item, this`rcurr, this`rbytes, this`received,
               this`consumed, sfd`script, sfd`grants, sfd`faults, sfd`dry
      ensures Valid() && old(sfd.faults) <= sfd.faults && sfd.dry >= old(sfd.dry)
      ensures stop ==> state == NRead && rbytes == 0 && rlbytes > 0 && sfd.dry > old(sfd.dry)
      ensures old(received) <= received && received + Stream(sfd.script) == old(received + Stream(sfd.script))
      ensures !stop ==> Progress(old(sfd.Weight() + rbytes), NRead, sfd.Weight() + rbytes, state)
      ensures last == Eof || last == Failed ==> state == Closing
    {
      hide Parsed, Stream, InData;
      stop, last := false, Again;
      if rlbytes == 0 {
        DataDone(log, item);
        log := log + [Block(item)];
        state, writeAndGo := Writing, Reading;
        return;
      }
      if rbytes > 0 {
        CopyToItem();
        return;
      }
      var res := ReadToItem();
      if !res.Bytes? {
        last := res;
        stop := NoData(res);
      }
    }

    /** Bytes read past the empty buffer into the item. */
    method ReadToItem() returns (res: Answer)
      requires Valid() && state == NRead && rbytes == 0 && rlbytes > 0
      modifies this`rlbytes, this`item, this`received, this`consumed, sfd`script, sfd`faults, sfd`dry
      ensures Valid() && old(received) <= received &&
              received + Stream(sfd.script) == old(received + Stream(sfd.script))
      ensures sfd.faults == old(sfd.faults) + if res == Eof || res == Failed then 1 else 0
      ensures sfd.dry == old(sfd.dry) + if res == Again then 1 else 0
      ensures if res.Bytes? then sfd.Weight() < old(sfd.Weight())
              else rlbytes == old(rlbytes) && sfd.Weight() <= old(sfd.Weight())
      ensures !res.Bytes? ==> log == Parsed(decide, received).events
    {
      hide Parsed, Stream, InData;
      DataPending(log, rlbytes, item);
      res := Bypass(rlbytes);
      if res.Bytes? {
        DataGoesOn(decide, old(consumed), log, rlbytes, item, res.data);
        item := item + res.data;
        rlbytes := rlbytes - |res.data|;
      }
    }

    /** Leftovers of the buffer are thrown away. */
    method SkipBuffered()
      requires Valid() && state == Swallow && rbytes > 0
      modifies this`sbytes, this`rcurr, this`rbytes, this`consumed
      ensures Valid() && (old(sbytes) > 0 ==> rbytes < old(rbytes))
    {
      hide Parsed, InSkip;
      var tocopy := if rbytes > sbytes then sbytes else rbytes;
      SkipGoesOn(decide, consumed, log, sbytes, Buffered()[..tocopy]);
      sbytes := sbytes - tocopy;
      Drop(tocopy);
    }

    /** conn_swallow. */
    method StepSwallow() returns (stop: bool, ghost last: Answer)
      requires Valid() && state == Swallow
      modifies this`state, this`sbytes, this`rbuf, this`rcurr, this`rbytes, this`received, this`consumed, rbuf,
               sfd`script, sfd`grants, sfd`faults, sfd`dry
      ensures Valid() && (rbuf == old(rbuf) || fresh(rbuf)) && old(sfd.faults) <= sfd.faults && sfd.dry >= old(sfd.dry)
      ensures stop ==> state == Swallow && rbytes == 0 && sfd.dry > old(sfd.dry)
      ensures old(received) <= received && received + Stream(sfd.script) == old(received + Stream(sfd.script))
      ensures !stop ==> Progress(old(sfd.Weight() + rbytes), Swallow, sfd.Weight() + rbytes, state)
      ensures last == Eof || last == Failed ==> state == Closing
    {
      hide Parsed, Stream;
      stop, last := false, Again;
      if sbytes == 0 {
        SetState(Reading);
        return;
      }
      if rbytes > 0 {
        SkipBuffered();
        return;
      }
      var res := ReadAndSkip();
      if !res.Bytes? {
        last := res;
        stop := NoData(res);
      }
    }

    /** Bytes read over the empty buffer only to be thrown away. */
    method ReadAndSkip() returns (res: Answer)
      requires Valid() && state == Swallow && rbytes == 0 && sbytes > 0
      modifies this`sbytes, this`received, this`consumed, rbuf, sfd`script, sfd`faults, sfd`dry
      ensures Valid() && old(received) <= received &&
              received + Stream(sfd.script) == old(received + Stream(sfd.script))
      ensures sfd.faults == old(sfd.faults) + if res == Eof || res == Failed then 1 else 0
      ensures sfd.dry == old(sfd.dry) + if res == Again then 1 else 0
      ensures if res.Bytes? then sbytes < old(sbytes) && sfd.Weight() < old(sfd.Weight())
              else sbytes == old(sbytes) && sfd.Weight() <= old(sfd.Weight())
      ensures received == consumed
    {
      hide Parsed, Stream, InSkip;
      res := Bypass(if rbuf.Length > sbytes then sbytes else rbuf.Length);
      if res.Bytes? {
        SkipGoesOn(decide, old(consumed), log, sbytes, res.data);
        forall i | 0 <= i < |res.data| { rbuf[i] := res.data[i]; }
        sbytes := sbytes - |res.data|;
      }
    }

    /** conn_write and conn_mwrite, up to where the reply is out, blocks or fails. */
    method StepWriting() returns (stop: bool)
      requires Valid() && state == Writing
      modifies this`state, this`rbuf, this`rcurr, rbuf, sfd`sends, sfd`faults, sfd`blocked
      ensures Valid() && (rbuf == old(rbuf) || fresh(rbuf)) && old(sfd.faults) <= sfd.faults
      ensures stop ==> state == Writing && sfd.blocked > old(sfd.blocked)
      ensures !stop ==> state != Writing && state != NRead && sfd.blocked == old(sfd.blocked)
      ensures state == Writing || state == writeAndGo || state == Closing
    {
      hide Parsed;
      var r := sfd.Send();
      if r == Blocked {
        return true;
      }
      SetState(if r == Sent then writeAndGo else Closing);
      return false;
    }

    /** conn_read with no complete line in the buffer: more bytes, or wait, or give up. */
    method ReadMore() returns (stop: bool, ghost last: Answer)
      requires Valid() && state == Reading && '\n' !in Buffered()
      modifies this`rbuf, this`rcurr, this`rbytes, this`state, this`writeAndGo, this`received,
               rbuf, sfd`script, sfd`grants, sfd`faults, sfd`dry
      ensures Valid() && (rbuf == old(rbuf) || fresh(rbuf)) && (stop ==> state == Reading)
      ensures old(sfd.faults) <= sfd.faults && (stop && last == Failed ==> old(sfd.faults) < sfd.faults)
      ensures sfd.dry >= old(sfd.dry) && (stop && last != Failed ==> sfd.dry > old(sfd.dry))
      ensures old(received) <= received && received + Stream(sfd.script) == old(received + Stream(sfd.script))
      ensures stop && last != Failed ==> '\n' !in Buffered()
      ensures !stop ==> Progress(old(sfd.Weight() + rbytes), Reading, sfd.Weight() + rbytes, state)
      ensures last == Eof ==> state == Closing
      ensures old(Ends()) ==> Ended(old(received), old(Upcoming(sfd.script)))
    {
      hide Parsed, Stream, Upcoming, Ending, Generous;
      stop := false;
      var got;
      got, last := TryReadNetwork();
      if got {
        return;
      }
      stop := sfd.Grant();
      if !stop {
        state := Closing;
      }
    }

    /** conn_read. */
    method StepReading() returns (stop: bool, ghost last: Answer)
      requires Valid() && state == Reading
      modifies this, rbuf, sfd`script, sfd`grants, sfd`faults, sfd`dry
      ensures Valid() && (rbuf == old(rbuf) || fresh(rbuf)) && (stop ==> state == Reading)
      ensures old(sfd.faults) <= sfd.faults && (stop && last == Failed ==> old(sfd.faults) < sfd.faults)
      ensures sfd.dry >= old(sfd.dry) && (stop && last != Failed ==> sfd.dry > old(sfd.dry))
      ensures old(received) <= received && received + Stream(sfd.script) == old(received + Stream(sfd.script))
      ensures stop && last != Failed ==> '\n' !in Buffered()
      ensures !stop ==> Progress(old(sfd.Weight() + rbytes), Reading, sfd.Weight() + rbytes, state)
      ensures last == Eof ==> state == Closing
      ensures old(Ends()) ==> log == old(log) && Ended(old(received), old(Upcoming(sfd.script)))
    {
      hide Parsed, Stream, Tracks, Upcoming, Ending, Generous;
      stop, last := false, Again;
      var found := TryReadCommand();
      if !found {
        stop, last := ReadMore();
      }
    }

    /** A stream about to end, with no complete line in the buffer and no shortage of memory. */
    ghost predicate Ends()
      reads this`state, this`rbuf, this`rcurr, this`rbytes, rbuf, sfd`script, sfd`grants
      requires Framed()
    {
      state == Reading && '\n' !in Buffered() && Ending(sfd.script) == Eof && Generous(sfd.grants)
    }

    /** The last bytes were read, and the connection is given up. */
    ghost predicate Ended(before: string, coming: string)
      reads this`state, this`received
    {
      state == Closing && received == before + coming
    }

    /** Where the machine may stop. */
    ghost predicate Waiting(last: Answer, blocked: nat, dry: nat)
      reads this`state, this`rbuf, this`rcurr, this`rbytes, this`rlbytes, rbuf, sfd`faults, sfd`blocked, sfd`dry
      requires Framed()
    {
      match state
      case Reading => if last == Failed then sfd.faults > 0 else '\n' !in Buffered() && sfd.dry > dry
      case NRead => rbytes == 0 && rlbytes > 0 && sfd.dry > dry
      case Swallow => rbytes == 0 && sfd.dry > dry
      case Writing => sfd.blocked > blocked
      case Closing => true
    }

    /** Given up, with this handed over and received; that is final. */
    ghost predicate Given(events: seq<Event>, bytes: string)
      reads this`state, this`writeAndGo, this`log, this`received
    {
      Doomed(state, writeAndGo) && log == events && received == bytes
    }

    /** One turn of the loop of drive_machine. */
    method Turn() returns (stop: bool, ghost last: Answer)
      requires Valid() && state != Closing
      modifies this, rbuf, sfd
      ensures Valid() && (rbuf == old(rbuf) || fresh(rbuf)) && sfd.blocked >= old(sfd.blocked) &&
              sfd.dry >= old(sfd.dry)
      ensures old(received) <= received && received + Stream(sfd.script) == old(received + Stream(sfd.script))
      ensures if stop then Waiting(last, old(sfd.blocked), old(sfd.dry))
              else Progress(old(sfd.Weight() + rbytes), old(state), sfd.Weight() + rbytes, state)
      ensures last == Eof ==> state == Closing
      ensures old(Ends()) ==> log == old(log) && Ended(old(received), old(Upcoming(sfd.script)))
      ensures old(Doomed(state, writeAndGo)) ==> Given(old(log), old(received))
    {
      hide Parsed, Stream, Tracks, Upcoming, Ending, Generous;
      last := Again;
      match state
      case Reading => stop, last := StepReading();
      case NRead => stop, last := StepNRead();
      case Swallow => stop, last := StepSwallow();
      case Writing => stop := StepWriting();
    }

    /**
     drive_machine, from one wake-up to the next.  When it waits for the client, everything that
     can be told from the bytes received so far was handed over, whatever the pieces they came in.
     As long as there is no fault, only a reply that would block or a quit can stop it otherwise.
     At no time was anything handed over that the bytes do not spell.

     Whatever stops it, the events handed over are those of the bytes consumed, and all there are exactly
     if the bytes behind those complete nothing.  They are still in the buffer unless the connection is
     given up; then they are lost for good.  A stream that ends while commands are read is given up with
     all its last bytes unread: a command is lost exactly if there is a newline among them.
     */
    method DriveMachine() returns (ghost last: Answer)
      requires Valid()
      modifies this, rbuf, sfd
      ensures Valid() && (rbuf == old(rbuf) || fresh(rbuf))
      ensures old(received) <= received && received + Stream(sfd.script) == old(received + Stream(sfd.script))
      ensures state in {Reading, NRead, Swallow} && last != Failed ==> log == Parsed(decide, received).events
      ensures sfd.faults == 0 && state != Writing ==> log == Parsed(decide, received).events
      ensures state == Writing ==> sfd.blocked > old(sfd.blocked)
      ensures state in {Reading, NRead, Swallow} && last != Failed ==> sfd.dry > old(sfd.dry)
      ensures log <= Parsed(decide, received).events
      ensures last == Eof ==> state == Closing
      ensures log == Parsed(decide, consumed).events && consumed <= received
      ensures log == Parsed(decide, received).events <==>
                Silent(Parsed(decide, consumed).mode, received[|consumed|..])
      ensures !Doomed(state, writeAndGo) ==> received == consumed + Buffered()
      ensures old(Doomed(state, writeAndGo)) ==> Given(old(log), old(received))
      ensures old(Ends()) ==> log == old(log) && Ended(old(received), old(Upcoming(sfd.script)))
      ensures old(Ends()) ==> (log == Parsed(decide, received).events <==> '\n' !in old(Upcoming(sfd.script)))
    {
      hide Parsed, Stream, Tracks, Upcoming, Ending, Generous, Silent;
      last := Again;
      var stop := false;
      ghost var begun, ends, doomed := false, Ends(), Doomed(state, writeAndGo);
      ghost var coming := Upcoming(sfd.script);
      if ends {
        Spelled(decide, consumed, received, Buffered(), coming, log, writeAndGo, rlbytes, item, sbytes, sfd.faults);
      }
      while !stop
        invariant Valid() && (rbuf == old(rbuf) || fresh(rbuf)) && sfd.blocked >= old(sfd.blocked) &&
                  sfd.dry >= old(sfd.dry)
        invariant old(received) <= received && received + Stream(sfd.script) == old(received + Stream(sfd.script))
        invariant stop ==> begun && Waiting(last, old(sfd.blocked), old(sfd.dry))
        invariant last == Eof ==> state == Closing
        invariant doomed ==> Given(old(log), old(received))
        invariant !begun ==> Ends() == ends && Upcoming(sfd.script) == coming
        invariant !begun ==> log == old(log) && received == old(received)
        invariant begun && ends ==> log == old(log) && Ended(old(received), coming)
        decreases !stop, sfd.Weight() + rbytes, Rank(state)
      {
        if state == Closing {
          stop := true;
        } else {
          stop, last := Turn();
        }
        begun := true;
      }
      Told(decide, consumed, received, Buffered(), log, state, writeAndGo, rlbytes, item, sbytes, sfd.faults);
    }
  }

  /** What a stream about to end spells with its last bytes. */
  lemma Spelled(decide: Decide, consumed: string, received: string, buffered: string, coming: string, log: seq<Event>,
      next: ConnState, rlbytes: nat, item: string, sbytes: nat, faults: nat)
    requires Tracks(decide, consumed, log, Reading, next, rlbytes, item, sbytes, faults)
    requires received == consumed + buffered && '\n' !in buffered
    ensures log == Parsed(decide, received + coming).events <==> '\n' !in coming
  {
    hide Parsed;
    Unfinished(decide, received, consumed, buffered, log);
    NewlineBringsEvent(decide, received, coming);
  }

  lemma TrimIs(buffered: string, k: nat)
    requires k < |buffered|
    ensures Trim(buffered[..k]) == if k > 1 && buffered[k - 1] == '\r' then buffered[..k - 1] else buffered[..k]
  {
  }

  lemma LineCut(decide: Decide, received: string, consumed: string, buffered: string, log: seq<Event>, k: nat)
    requires k < |buffered| && buffered[k] == '\n' && '\n' !in buffered[..k]
    requires Parsed(decide, consumed) == Parse(log, InLine([])) && received == consumed + buffered
    ensures Parsed(decide, consumed + buffered[..k + 1]) == AfterLine(decide, log + [Line(Trim(buffered[..k]))])
    ensures received == consumed + buffered[..k + 1] + buffered[k + 1..]
    ensures consumed + buffered[..k + 1] <= received
  {
    hide Parsed, AfterLine;
    LineEnds(decide, consumed, buffered[..k]);
    CutAt(consumed, buffered, k);
  }

  lemma CutAt(consumed: string, buffered: string, k: nat)
    requires k < |buffered|
    ensures consumed + buffered[..k + 1] == consumed + buffered[..k] + [buffered[k]]
    ensures consumed + buffered == consumed + buffered[..k + 1] + buffered[k + 1..]
    ensures consumed + buffered[..k + 1] <= consumed + buffered
  {
    assert buffered == buffered[..k + 1] + buffered[k + 1..];
    assert buffered[..k + 1] == buffered[..k] + [buffered[k]];
  }

  lemma Unfinished(decide: Decide, received: string, consumed: string, buffered: string, log: seq<Event>)
    requires Parsed(decide, consumed) == Parse(log, InLine([])) && received == consumed + buffered && '\n' !in buffered
    ensures Parsed(decide, received) == Parse(log, InLine(buffered))
  {
    LineGoesOn(decide, consumed, buffered);
    assert [] + buffered == buffered;
  }

  lemma Arrived(decide: Decide, consumed: string, buffered: string, before: string, more: string, rest: string,
      received: string, log: seq<Event>)
    requires Parsed(decide, consumed) == Parse(log, InLine([])) && before == consumed + buffered && '\n' !in buffered
    requires received == before + more
    ensures before <= received && consumed <= received && received == consumed + (buffered + more)
    ensures received + rest == before + (more + rest)
    ensures log == Parsed(decide, received).events <==> '\n' !in received[|before|..]
    ensures log == Parsed(decide, before).events
  {
    hide Parsed;
    Unfinished(decide, before, consumed, buffered, log);
    NewlineBringsEvent(decide, before, more);
    assert received[|before|..] == more;
    Assoc(before, more, rest);
    Assoc(consumed, buffered, more);
    Starts(before, more);
    Starts(consumed, buffered + more);
  }

  lemma Starts(a: string, b: string)
    ensures a <= a + b
  {
  }

  lemma AtLineStart(decide: Decide, consumed: string, log: seq<Event>, next: ConnState, rlbytes: nat, item: string,
      sbytes: nat, faults: nat)
    requires Tracks(decide, consumed, log, Reading, next, rlbytes, item, sbytes, faults)
    ensures Parsed(decide, consumed) == Parse(log, InLine([]))
  {
    hide Parsed;
  }

  /** From reading commands a fault leads to closing, directly or after a last reply. */
  lemma GivesUp(decide: Decide, consumed: string, log: seq<Event>, next: ConnState, rlbytes: nat, item: string,
      sbytes: nat, faults: nat)
    requires Parsed(decide, consumed) == Parse(log, InLine([]))
    ensures Tracks(decide, consumed, log, Reading, next, rlbytes, item, sbytes, faults)
    ensures faults > 0 ==> Tracks(decide, consumed, log, Closing, next, rlbytes, item, sbytes, faults)
    ensures faults > 0 ==> Tracks(decide, consumed, log, Writing, Closing, rlbytes, item, sbytes, faults)
  {
    hide Parsed;
  }

  lemma DataPending(log: seq<Event>, left: nat, item: string)
    requires left > 0
    ensures InData(log, left, item).events == log
  {
  }

  function Rank(state: ConnState): nat {
    match state case NRead => 4 case Writing => 3 case Swallow => 2 case Reading => 1 case Closing => 0
  }

  /** Bytes were moved on, or the state went down. */
  predicate Progress(weight: nat, state: ConnState, weight': nat, state': ConnState) {
    weight' < weight || (weight' == weight && Rank(state') < Rank(state))
  }

  lemma DataDone(log: seq<Event>, item: string)
    ensures InData(log, 0, item) == Parse(log + [Block(item)], InLine([]))
  {
  }

  /** What the connection has handed over when it stops, against what the bytes received spell. */
  lemma Told(decide: Decide, consumed: string, received: string, buffered: string, log: seq<Event>, state: ConnState,
      next: ConnState, rlbytes: nat, item: string, sbytes: nat, faults: nat)
    requires Tracks(decide, consumed, log, state, next, rlbytes, item, sbytes, faults) && consumed <= received
    requires !Doomed(state, next) ==> received == consumed + buffered
    requires state == NRead ==> rlbytes > 0
    ensures log <= Parsed(decide, received).events
    ensures state == Reading && '\n' !in buffered ==> log == Parsed(decide, received).events
    ensures (state == NRead || state == Swallow) && buffered == [] ==> log == Parsed(decide, received).events
    ensures state == Closing && faults == 0 ==> log == Parsed(decide, received).events
    ensures log == Parsed(decide, consumed).events
    ensures log == Parsed(decide, received).events <==>
              Silent(Parsed(decide, consumed).mode, received[|consumed|..])
  {
    hide Silent;
    SilentExact(decide, consumed, received[|consumed|..]);
    EventsGrow(decide, consumed, received[|consumed|..]);
    assert received == consumed + received[|consumed|..];
    if state == Closing && faults == 0 {
      OverStays(decide, consumed, received[|consumed|..]);
    }
    if state == Reading && '\n' !in buffered {
      Unfinished(decide, received, consumed, buffered, log);
    }
    if buffered == [] {
      assert consumed + buffered == consumed;
    }
  }
}
