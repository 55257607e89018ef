/**
 The outbound half of a connection.  A reply is a list of pieces of memory (iov), cut into messages
 (msghdr) that each point at a stretch of it; a UDP message starts with a slot for its header.
 Bytes are numbers below 256.
 */
module ConnOut {
  import opened Sequences

  const IOV_MAX := 1024
  const UDP_MAX_PAYLOAD_SIZE := 1400
  const UDP_HEADER_SIZE := 8

  type Data = seq<int>

  /** The pieces of one message. */
  type Frame = seq<Data>

  /** A message header: a pointer into an array of pieces, and how many of them belong to it. */
  datatype Msghdr = Msghdr(base: array<Data>, off: nat, len: nat)

  function Join(pieces: seq<Data>): Data {
    if pieces == [] then [] else pieces[0] + Join(pieces[1..])
  }

  /** What a message carries besides its header. */
  function Body(frame: Frame, udp: bool): Data { Join(if udp && frame != [] then frame[1..] else frame) }

  /** The data of all messages. */
  function Payload(frames: seq<Frame>, udp: bool): Data {
    if frames == [] then [] else Payload(frames[..|frames| - 1], udp) + Body(frames[|frames| - 1], udp)
  }

  /** All bytes of all messages. */
  function Wire(frames: seq<Frame>): Data {
    if frames == [] then [] else Join(frames[0]) + Wire(frames[1..])
  }

  /** Where message i starts when the messages lie one behind the other. */
  function Start(frames: seq<Frame>, i: nat): nat
    requires i <= |frames|
  {
    if i == 0 then 0 else Start(frames, i - 1) + |frames[i - 1]|
  }

  /** The header m covers the pieces of f, from start on. */
  ghost predicate Covers(m: Msghdr, f: Frame, base: array<Data>, slots: seq<Data>, start: nat, used: nat) {
    m == Msghdr(base, start, |f|) && start + |f| <= used <= |slots| && slots[start..start + |f|] == f
  }

  /** The headers cut slots[..used] into the frames, without gaps. */
  ghost predicate Layout(frames: seq<Frame>, msgs: seq<Msghdr>, base: array<Data>, slots: seq<Data>, used: nat) {
    && |msgs| == |frames| && used <= |slots| && used == Start(frames, |frames|)
    && (forall i :: 0 <= i < |msgs| ==> Covers(msgs[i], frames[i], base, slots, Start(frames, i), used))
  }

  ghost predicate Datagram(frame: Frame) {
    frame != [] && |frame[0]| == UDP_HEADER_SIZE && |Join(frame)| <= UDP_MAX_PAYLOAD_SIZE
  }

  /** Limits kept by every message; msgbytes counts the last one. */
  ghost predicate Limits(frames: seq<Frame>, udp: bool, msgbytes: nat) {
    && (forall i :: 0 <= i < |frames| ==> |frames[i]| <= IOV_MAX)
    && (udp ==> forall i :: 0 <= i < |frames| ==> Datagram(frames[i]))
    && (!udp && frames != [] ==> |Join(frames[0])| <= UDP_MAX_PAYLOAD_SIZE)
    && (frames != [] ==> msgbytes == |Join(frames[|frames| - 1])|)
  }

  /** No message has more pieces than sendmsg takes. */
  ghost predicate Within(frames: seq<Frame>) { forall i :: 0 <= i < |frames| ==> |frames[i]| <= IOV_MAX }

  /** No message is empty. */
  ghost predicate Filled(frames: seq<Frame>) { forall i :: 0 <= i < |frames| ==> frames[i] != [] }

  /** The part of it that holds even when memory was refused on the way. */
  ghost predicate Sizes(frames: seq<Frame>, udp: bool, msgbytes: nat) {
    && (udp ==> forall i :: 0 <= i < |frames| ==> |Join(frames[i])| <= UDP_MAX_PAYLOAD_SIZE)
    && (!udp && frames != [] ==> |Join(frames[0])| <= UDP_MAX_PAYLOAD_SIZE)
    && (frames != [] ==> msgbytes == |Join(frames[|frames| - 1])|)
  }

  // ----- joining

  lemma {:induction false} JoinAppend(a: seq<Data>, b: seq<Data>)
    ensures Join(a + b) == Join(a) + Join(b)
  {
    if a == [] {
      assert a + b == b;
    } else {
      assert (a + b)[1..] == a[1..] + b;
      JoinAppend(a[1..], b);
    }
  }

  lemma JoinOne(p: Data)
    ensures Join([p]) == p
  {
    assert [p][1..] == [];
  }

  lemma JoinMore(a: seq<Data>, p: Data)
    ensures Join(a + [p]) == Join(a) + p
  {
    JoinAppend(a, [p]);
    JoinOne(p);
  }

  /** For TCP the data of the messages is all that goes out. */
  lemma {:induction false} WireIsPayload(frames: seq<Frame>)
    ensures Wire(frames) == Payload(frames, false)
  {
    if frames != [] {
      WireIsPayload(frames[..|frames| - 1]);
      WireMore(frames[..|frames| - 1], frames[|frames| - 1]);
      assert frames == frames[..|frames| - 1] + [frames[|frames| - 1]];
    }
  }

  lemma {:induction false} WireMore(frames: seq<Frame>, f: Frame)
    ensures Wire(frames + [f]) == Wire(frames) + Join(f)
  {
    if frames == [] {
      assert [f][1..] == [];
      assert frames + [f] == [f];
    } else {
      WireMore(frames[1..], f);
      assert (frames + [f])[1..] == frames[1..] + [f];
      Assoc(Join(frames[0]), Wire(frames[1..]), Join(f));
    }
  }

  // ----- the two ways the list of messages grows

  function Extend(frames: seq<Frame>, p: Data): seq<Frame>
    requires frames != []
  {
    frames[|frames| - 1 := frames[|frames| - 1] + [p]]
  }

  lemma PayloadExtend(frames: seq<Frame>, udp: bool, p: Data)
    requires frames != [] && (udp ==> frames[|frames| - 1] != [])
    ensures Payload(Extend(frames, p), udp) == Payload(frames, udp) + p
  {
    var n := |frames| - 1;
    var f := frames[n];
    assert Extend(frames, p)[..n] == frames[..n];
    if udp {
      assert (f + [p])[1..] == f[1..] + [p];
      JoinMore(f[1..], p);
    } else {
      JoinMore(f, p);
    }
  }

  lemma PayloadOpen(frames: seq<Frame>, udp: bool, f: Frame)
    requires f == [] || (udp && |f| == 1)
    ensures Payload(frames + [f], udp) == Payload(frames, udp)
  {
    assert (frames + [f])[..|frames|] == frames;
    assert f != [] ==> f[1..] == [];
  }

  lemma {:induction false} StartSame(frames: seq<Frame>, g: seq<Frame>, i: nat)
    requires i <= |frames| && i <= |g| && forall k :: 0 <= k < i ==> |frames[k]| == |g[k]|
    ensures Start(frames, i) == Start(g, i)
  {
    if i > 0 { StartSame(frames, g, i - 1); }
  }

  lemma CoversKept(m: Msghdr, f: Frame, base: array<Data>, slots: seq<Data>, start: nat, used: nat, p: Data)
    requires Covers(m, f, base, slots, start, used) && used < |slots|
    ensures Covers(m, f, base, slots[used := p], start, used + 1)
  {
    assert slots[used := p][start..start + |f|] == slots[start..start + |f|];
  }

  lemma CoversMore(m: Msghdr, f: Frame, base: array<Data>, slots: seq<Data>, start: nat, p: Data)
    requires Covers(m, f, base, slots, start, start + |f|) && start + |f| < |slots|
    ensures Covers(m.(len := m.len + 1), f + [p], base, slots[start + |f| := p], start, start + |f| + 1)
  {
    assert slots[start + |f| := p][start..start + |f| + 1] == slots[start..start + |f|] + [p];
  }

  lemma LayoutExtend(frames: seq<Frame>, msgs: seq<Msghdr>, base: array<Data>, slots: seq<Data>, used: nat, p: Data)
    requires Layout(frames, msgs, base, slots, used) && frames != [] && used < |slots|
    ensures var n := |msgs| - 1;
            Layout(Extend(frames, p), msgs[n := msgs[n].(len := msgs[n].len + 1)], base, slots[used := p], used + 1)
  {
    hide Covers, Start;
    var n := |frames| - 1;
    var g := Extend(frames, p);
    StartsBefore(frames, g, n);
    StartNext(frames, n);
    StartNext(g, n);
    forall i | 0 <= i < n
      ensures Covers(msgs[i], g[i], base, slots[used := p], Start(g, i), used + 1)
    {
      CoversKept(msgs[i], frames[i], base, slots, Start(frames, i), used, p);
    }
    CoversMore(msgs[n], frames[n], base, slots, Start(frames, n), p);
  }

  lemma StartNext(frames: seq<Frame>, i: nat)
    requires i < |frames|
    ensures Start(frames, i + 1) == Start(frames, i) + |frames[i]|
  {
  }

  lemma StartsBefore(frames: seq<Frame>, g: seq<Frame>, n: nat)
    requires n <= |frames| && n <= |g| && frames[..n] == g[..n]
    ensures forall i :: 0 <= i <= n ==> Start(g, i) == Start(frames, i)
  {
    forall i | 0 <= i <= n
      ensures Start(g, i) == Start(frames, i)
    {
      assert forall k :: 0 <= k < i ==> frames[..n][k] == g[..n][k];
      StartSame(g, frames, i);
    }
  }

  lemma LayoutOpen(frames: seq<Frame>, msgs: seq<Msghdr>, base: array<Data>, slots: seq<Data>, used: nat)
    requires Layout(frames, msgs, base, slots, used)
    ensures Layout(frames + [[]], msgs + [Msghdr(base, used, 0)], base, slots, used)
  {
    hide Covers, Start;
    var g := frames + [[]];
    StartsBefore(frames, g, |frames|);
    StartNext(g, |frames|);
    CoversNothing(base, slots, used);
  }

  lemma CoversNothing(base: array<Data>, slots: seq<Data>, used: nat)
    requires used <= |slots|
    ensures Covers(Msghdr(base, used, 0), [], base, slots, used, used)
  {
  }

  lemma LimitsExtend(frames: seq<Frame>, udp: bool, msgbytes: nat, p: Data)
    requires Limits(frames, udp, msgbytes) && frames != [] && |frames[|frames| - 1]| < IOV_MAX
    requires udp || |frames| == 1 ==> msgbytes + |p| <= UDP_MAX_PAYLOAD_SIZE
    ensures Limits(Extend(frames, p), udp, msgbytes + |p|)
  {
    JoinMore(frames[|frames| - 1], p);
    hide Join;
  }

  lemma SizesExtend(frames: seq<Frame>, udp: bool, msgbytes: nat, p: Data)
    requires Sizes(frames, udp, msgbytes) && frames != []
    requires udp || |frames| == 1 ==> msgbytes + |p| <= UDP_MAX_PAYLOAD_SIZE
    ensures Sizes(Extend(frames, p), udp, msgbytes + |p|)
  {
    JoinMore(frames[|frames| - 1], p);
    hide Join;
  }

  lemma SizesOpen(frames: seq<Frame>, udp: bool, msgbytes: nat)
    requires Sizes(frames, udp, msgbytes)
    ensures Sizes(frames + [[]], udp, 0)
    ensures Sizes(frames + [NewFrame(udp)], udp, if udp then UDP_HEADER_SIZE else 0)
  {
    JoinOne(seq(UDP_HEADER_SIZE, i => 0));
    assert Join([]) == [];
    hide Join;
  }

  /** What a new message starts with: nothing, or room for the header. */
  function NewFrame(udp: bool): Frame {
    if udp then [seq(UDP_HEADER_SIZE, i => 0)] else []
  }

  lemma LimitsOpen(frames: seq<Frame>, udp: bool, msgbytes: nat)
    requires Limits(frames, udp, msgbytes)
    ensures Limits(frames + [NewFrame(udp)], udp, if udp then UDP_HEADER_SIZE else 0)
  {
    JoinOne(seq(UDP_HEADER_SIZE, i => 0));
    assert Join([]) == [];
    hide Join;
  }

  lemma OpensWithin(frames: seq<Frame>, udp: bool, msgbytes: nat)
    ensures Limits(frames, udp, msgbytes) ==> Limits(frames + [NewFrame(udp)], udp, if udp then UDP_HEADER_SIZE else 0)
  {
    hide Limits;
    if Limits(frames, udp, msgbytes) { LimitsOpen(frames, udp, msgbytes); }
  }

  lemma LayoutMoved(frames: seq<Frame>, msgs: seq<Msghdr>, base: array<Data>, slots: seq<Data>, used: nat,
      msgs': seq<Msghdr>, base': array<Data>, slots': seq<Data>)
    requires Layout(frames, msgs, base, slots, used) && |msgs'| == |msgs| && used <= |slots'| &&
             slots'[..used] == slots[..used]
    requires forall i :: 0 <= i < |msgs| ==> msgs'[i] == msgs[i].(base := base')
    ensures Layout(frames, msgs', base', slots', used)
  {
    hide Covers, Start;
    forall i | 0 <= i < |msgs|
      ensures Covers(msgs'[i], frames[i], base', slots', Start(frames, i), used)
    {
      CoversMoved(msgs[i], frames[i], base, slots, Start(frames, i), used, base', slots');
    }
  }

  lemma CoversMoved(m: Msghdr, f: Frame, base: array<Data>, slots: seq<Data>, start: nat, used: nat,
      base': array<Data>, slots': seq<Data>)
    requires Covers(m, f, base, slots, start, used) && used <= |slots'| && slots'[..used] == slots[..used]
    ensures Covers(m.(base := base'), f, base', slots', start, used)
  {
    assert slots'[start..start + |f|] == slots'[..used][start..start + |f|] == slots[..used][start..start + |f|] ==
           slots[start..start + |f|];
  }

  lemma LastEnds(frames: seq<Frame>, msgs: seq<Msghdr>, base: array<Data>, slots: seq<Data>, used: nat)
    requires Layout(frames, msgs, base, slots, used) && frames != []
    ensures msgs[|msgs| - 1].base == base && msgs[|msgs| - 1].off + msgs[|msgs| - 1].len == used
    ensures msgs[|msgs| - 1].len == |frames[|frames| - 1]|
  {
    hide Start;
    StartNext(frames, |frames| - 1);
    assert Covers(msgs[|msgs| - 1], frames[|msgs| - 1], base, slots, Start(frames, |msgs| - 1), used);
  }

  /** What the allocator answers next, and after that. */
  function Answer(grants: seq<bool>): bool { grants == [] || grants[0] }
  function Rest(grants: seq<bool>): seq<bool> { if grants == [] then [] else grants[1..] }

  /** How an attempt to open a message ends: not at all, with all it needs, or without its header slot. */
  datatype Opening = Unopened | Whole | Bare

  /** `tight`: the list of headers is full; `full`: the list of pieces is. */
  function OpenHow(udp: bool, tight: bool, full: bool, grants: seq<bool>): Opening {
    if tight && !Answer(grants) then Unopened
    else if udp && full && !Answer(if tight then Rest(grants) else grants) then Bare
    else Whole
  }

  function OpenRest(udp: bool, tight: bool, full: bool, grants: seq<bool>): seq<bool> {
    if tight && !Answer(grants) then Rest(grants)
    else
      var g := if tight then Rest(grants) else grants;
      if udp && full then Rest(g) else g
  }

  function Opened(frames: seq<Frame>, how: Opening, udp: bool): seq<Frame> {
    match how case Unopened => frames case Whole => frames + [NewFrame(udp)] case Bare => frames + [[]]
  }

  function OpenedBytes(msgbytes: nat, how: Opening, udp: bool): nat {
    match how case Unopened => msgbytes case Whole => if udp then UDP_HEADER_SIZE else 0 case Bare => 0
  }

  /** The test of add_iov for a message that can take no more. */
  predicate NoMore(f: Frame, limit: bool, msgbytes: nat) {
    |f| == IOV_MAX || (limit && msgbytes >= UDP_MAX_PAYLOAD_SIZE)
  }

  /** How much of n bytes one turn of add_iov puts into the message. */
  function Part(n: nat, limit: bool, msgbytes: nat): nat {
    if limit && msgbytes <= UDP_MAX_PAYLOAD_SIZE && n + msgbytes > UDP_MAX_PAYLOAD_SIZE
    then UDP_MAX_PAYLOAD_SIZE - msgbytes else n
  }

  function LastOf(frames: seq<Frame>): Frame
    requires frames != []
  {
    frames[|frames| - 1]
  }

  class Outbox {
    const udp: bool
    const requestId: nat
    var iov: array<Data>
    var iovused: nat
    var msgs: seq<Msghdr>
    var msgbytes: nat
    var msgcurr: nat
    var msgsize: nat
    var hdrsize: nat
    var grants: seq<bool>
    ghost var frames: seq<Frame>
    ghost var sent: Data
    /** messages opened without their header slot */
    ghost var bare: nat
    /** pieces put on messages that had 1024 already */
    ghost var overfull: nat
    /** bytes put where a header slot should be */
    ghost var misplaced: nat

    ghost predicate Laid()
      reads this`iov, this`iovused, this`msgs, this`frames, iov
    {
      iov.Length > 0 && Layout(frames, msgs, iov, iov[..], iovused)
    }

    /** Between calls, while a reply is put together. */
    ghost predicate Standing()
      reads this`iov, this`iovused, this`msgs, this`frames, this`msgbytes, iov
    {
      Laid() && Sizes(frames, udp, msgbytes)
    }

    /** A reply whose messages all keep their limits and have their header slots. */
    ghost predicate Built()
      reads this`iov, this`iovused, this`msgs, this`frames, this`msgbytes, this`bare, iov
    {
      Laid() && Limits(frames, udp, msgbytes) && bare == 0
    }

    /**
     A reply with no message yet; size and msgsize are the first sizes of the lists, grants the
     answers to come to requests for memory, granted when there are no more.
     */
    constructor (udp: bool, requestId: nat, size: nat, msgsize: nat, grants: seq<bool>)
      requires size > 0 && msgsize > 0
      ensures Standing() && Built() && frames == [] && msgbytes == 0 && iovused == 0 && iov.Length == size && msgs == []
      ensures this.udp == udp && this.requestId == requestId && this.msgsize == msgsize && this.grants == grants
      ensures sent == [] && msgcurr == 0 && fresh(iov) && overfull == 0 && misplaced == 0
    {
      this.udp, this.requestId := udp, requestId;
      iov := new Data[size];
      iovused, msgs, msgbytes, msgcurr, frames, sent := 0, [], 0, 0, [], [];
      this.msgsize, hdrsize, this.grants := msgsize, 0, grants;
      bare, overfull, misplaced := 0, 0, 0;
    }

    /** A request for more memory. */
    method Grant() returns (ok: bool)
      modifies this`grants
      ensures ok == Answer(old(grants)) && grants == Rest(old(grants))
    {
      ok := true;
      if grants != [] {
        ok, grants := grants[0], grants[1..];
      }
    }

    /** ensure_iov_space: the list doubles when full, and the headers follow it to its new place. */
    method EnsureIovSpace() returns (ok: bool)
      requires Laid()
      modifies this`iov, this`msgs, this`grants
      ensures Laid() && (iov == old(iov) || fresh(iov)) && (ok ==> iovused < iov.Length) && |msgs| == |old(msgs)|
      ensures iov.Length >= old(iov.Length) && (!ok || old(iovused < iov.Length) ==> iov == old(iov))
      ensures ok == (old(iovused < iov.Length) || Answer(old(grants)))
      ensures grants == if old(iovused < iov.Length) then old(grants) else Rest(old(grants))
    {
      hide Layout;
      ok := true;
      if iovused >= iov.Length {
        ok := Grant();
        if !ok {
          return;
        }
        ghost var list, were, slots := iov, msgs, iov[..];
        var bigger := new Data[iov.Length * 2];
        Fits(frames, msgs, iov, slots, iovused);
        forall i | 0 <= i < iov.Length { bigger[i] := iov[i]; }
        iov := bigger;
        Repoint(list, slots);
      }
    }

    method Repoint(ghost list: array<Data>, ghost slots: seq<Data>)
      requires Layout(frames, msgs, list, slots, iovused) && iovused <= iov.Length && iov[..iovused] == slots[..iovused]
      modifies this`msgs
      ensures Layout(frames, msgs, iov, iov[..], iovused) && |msgs| == |old(msgs)|
    {
      hide Layout, Start;
      ghost var were := msgs;
      Shape(frames, msgs, list, slots, iovused);
      var i, iovnum := 0, 0;
      StartZero(frames);
      while i < |msgs|
        invariant i <= |msgs| == |were| == |frames| && iovnum == Start(frames, i)
        invariant forall k :: 0 <= k < i ==> msgs[k] == were[k].(base := iov)
        invariant forall k :: i <= k < |msgs| ==> msgs[k] == were[k]
      {
        msgs := msgs[i := msgs[i].(base := iov, off := iovnum)];
        iovnum := iovnum + msgs[i].len;
        StartNext(frames, i);
        i := i + 1;
      }
      assert iov[..][..iovused] == iov[..iovused];
      LayoutMoved(frames, were, list, slots, iovused, msgs, iov, iov[..]);
    }

    /** The end of add_iov's loop: one more piece for the last message. */
    method Put(p: Data) returns (ok: bool)
      requires Laid() && frames != []
      modifies this`iov, this`iovused, this`msgs, this`msgbytes, this`frames, this`grants, iov
      ensures Laid() && (iov == old(iov) || fresh(iov)) && |msgs| == |old(msgs)| && iov.Length >= old(iov.Length)
      ensures ok == (old(iovused < iov.Length) || Answer(old(grants)))
      ensures grants == if old(iovused < iov.Length) then old(grants) else Rest(old(grants))
      ensures ok ==> frames == Extend(old(frames), p) && msgbytes == old(msgbytes) + |p| && iovused == old(iovused) + 1
      ensures !ok ==> frames == old(frames) && msgbytes == old(msgbytes) && iovused == old(iovused)
      ensures !ok || old(iovused < iov.Length) ==> iov == old(iov)
    {
      hide Extend, Layout, Start;
      ok := EnsureIovSpace();
      if !ok {
        return;
      }
      LastEnds(frames, msgs, iov, iov[..], iovused);
      LayoutExtend(frames, msgs, iov, iov[..], iovused, p);
      Shape(frames, msgs, iov, iov[..], iovused);
      ghost var slots := iov[..];
      var n := |msgs| - 1;
      var m := msgs[n];
      m.base[m.off + m.len] := p;
      assert iov[..] == slots[iovused := p];
      msgbytes := msgbytes + |p|;
      iovused := iovused + 1;
      msgs := msgs[n := m.(len := m.len + 1)];
      frames := Extend(frames, p);
    }

    /**
     add_msghdr; the eight bytes for a UDP header always fit a message that is still empty.  If
     memory is refused the list is as before, or ends in a UDP message without its header slot.
     */
    method AddMsghdr() returns (ok: bool, ghost how: Opening)
      requires Standing()
      modifies this`iov, this`iovused, this`msgs, this`msgbytes, this`msgsize, this`frames, this`grants, this`bare, iov
      ensures Standing() && (iov == old(iov) || fresh(iov)) && iov.Length >= old(iov.Length)
      ensures how == OpenHow(udp, old(msgsize == |msgs|), old(iovused >= iov.Length), old(grants)) && ok == how.Whole?
      ensures grants == OpenRest(udp, old(msgsize == |msgs|), old(iovused >= iov.Length), old(grants))
      ensures frames == Opened(old(frames), how, udp) && msgbytes == OpenedBytes(old(msgbytes), how, udp)
      ensures bare == old(bare) + (if how.Bare? then 1 else 0)
      ensures |msgs| == |frames| && iovused == old(iovused) + (if udp && how.Whole? then 1 else 0)
      ensures msgsize == if old(msgsize == |msgs|) && !how.Unopened? then 2 * old(msgsize) else old(msgsize)
      ensures !how.Whole? || old(iovused < iov.Length) ==> iov == old(iov)
      ensures old(Built()) ==> (Built() <==> !how.Bare?)
      ensures ok && udp && old(Filled(frames)) ==> Filled(frames)
    {
      hide Layout, Sizes, Limits, Start;
      OpensWithin(frames, udp, msgbytes);
      SizesOpen(frames, udp, msgbytes);
      Shape(frames, msgs, iov, iov[..], iovused);
      ok, how := true, Whole;
      if msgsize == |msgs| {
        ok := Grant();
        if !ok {
          how := Unopened;
          return;
        }
        msgsize := msgsize * 2;
      }
      OpenMessage();
      if udp {
        ok := Put(seq(UDP_HEADER_SIZE, i => 0));
        ExtendEmpty(old(frames), NewFrame(udp)[0]);
        if !ok {
          how := Bare;
          bare := bare + 1;
        }
      }
    }

    /** An empty message behind all others. */
    method OpenMessage()
      requires Laid()
      modifies this`msgs, this`msgbytes, this`frames
      ensures Laid() && frames == old(frames) + [[]] && msgbytes == 0 && |msgs| == |old(msgs)| + 1
    {
      hide Layout;
      LayoutOpen(frames, msgs, iov, iov[..], iovused);
      msgs := msgs + [Msghdr(iov, iovused, 0)];
      frames := frames + [[]];
      msgbytes := 0;
    }

    /** The start of a turn of add_iov's loop: a new message if this one is full, its failure ignored. */
    method MakeRoom(limitToMtu: bool) returns (ghost how: Opening)
      requires Standing() && frames != [] && limitToMtu == (udp || |frames| == 1)
      modifies this`iov, this`iovused, this`msgs, this`msgbytes, this`msgsize, this`frames, this`grants, this`bare, iov
      ensures Standing() && (iov == old(iov) || fresh(iov)) && iov.Length >= old(iov.Length)
      ensures var more := NoMore(LastOf(old(frames)), limitToMtu, old(msgbytes));
              && how == (if more then OpenHow(udp, old(msgsize == |msgs|), old(iovused >= iov.Length), old(grants))
                  else Unopened)
              && grants == (if more
                  then OpenRest(udp, old(msgsize == |msgs|), old(iovused >= iov.Length), old(grants)) else old(grants))
      ensures frames == Opened(old(frames), how, udp) && msgbytes == OpenedBytes(old(msgbytes), how, udp)
      ensures bare == old(bare) + (if how.Bare? then 1 else 0) && |msgs| == |frames|
      ensures !how.Whole? ==> iov == old(iov) && iovused == old(iovused)
      ensures how.Unopened? ==> msgsize == old(msgsize)
    {
      hide Layout, Start, Sizes;
      Shape(frames, msgs, iov, iov[..], iovused);
      LastEnds(frames, msgs, iov, iov[..], iovused);
      how := Unopened;
      var m := msgs[|msgs| - 1];
      if m.len == IOV_MAX || (limitToMtu && msgbytes >= UDP_MAX_PAYLOAD_SIZE) {
        var ok;
        ok, how := AddMsghdr();
      }
    }

    /** What one turn of add_iov's loop does: whether it opens a message, and what goes into the last one. */
    twostate predicate Turned(buf: Data, ok: bool, len: nat, how: Opening)
      requires old(frames) != []
      reads this, iov
    {
      var limit := udp || |old(frames)| == 1;
      var more := NoMore(LastOf(old(frames)), limit, old(msgbytes));
      var tight, full := old(msgsize == |msgs|), old(iovused >= iov.Length);
      var left := if more then OpenRest(udp, tight, full, old(grants)) else old(grants);
      var room := Opened(old(frames), how, udp);
      && how == (if more then OpenHow(udp, tight, full, old(grants)) else Unopened) && room != []
      && (!how.Whole? ==> ok == (!full || Answer(left)) && grants == if full then Rest(left) else left)
      && |grants| <= |left| && (!ok ==> |grants| < |left|)
      && len == (if ok then Part(|buf|, limit, OpenedBytes(old(msgbytes), how, udp)) else 0) && len <= |buf|
      && frames == (if ok then Extend(room, buf[..len]) else room)
      && msgbytes == OpenedBytes(old(msgbytes), how, udp) + len
      && bare == old(bare) + (if how.Bare? then 1 else 0)
      && overfull == old(overfull) + (if ok && |LastOf(room)| >= IOV_MAX then 1 else 0)
      && misplaced == old(misplaced) + (if ok && udp && LastOf(room) == [] then len else 0)
      && iov.Length >= old(iov.Length) && (!full && how.Unopened? ==> iov == old(iov))
      && (how.Unopened? ==> msgsize == old(msgsize) && |msgs| == |old(msgs)|)
      && (!how.Whole? ==> iovused == old(iovused) + if ok then 1 else 0)
    }

    /** The code of one turn. */
    method TakeTurn(buf: Data) returns (ok: bool, len: nat, ghost how: Opening)
      requires Standing() && frames != []
      modifies this`iov, this`iovused, this`msgs, this`msgbytes, this`msgsize, this`frames, this`grants,
               this`bare, this`overfull, this`misplaced, iov
      ensures Standing() && frames != [] && (iov == old(iov) || fresh(iov)) && len <= |buf|
      ensures Turned(buf, ok, len, how)
      ensures udp || |old(frames)| == 1 ==> old(msgbytes) <= UDP_MAX_PAYLOAD_SIZE
    {
      hide Layout, Extend, Start, Sizes, OpenHow, OpenRest, Answer, Part;
      Shape(frames, msgs, iov, iov[..], iovused);
      var limitToMtu := udp || |msgs| == 1;
      Capped(frames, udp, msgbytes);
      how := MakeRoom(limitToMtu);
      RoomFacts(old(frames), how, udp, old(msgbytes));
      RestNotLonger(grants);
      ok, len := PutPart(buf, limitToMtu);
    }

    /** The rest of it: as much of the data as fits goes into the last message. */
    method PutPart(buf: Data, limitToMtu: bool) returns (ok: bool, len: nat)
      requires Standing() && frames != [] && (udp || |frames| == 1 ==> limitToMtu)
      requires limitToMtu ==> msgbytes <= UDP_MAX_PAYLOAD_SIZE
      modifies this`iov, this`iovused, this`msgs, this`msgbytes, this`frames, this`grants, this`overfull,
               this`misplaced, iov
      ensures Standing() && frames != [] && (iov == old(iov) || fresh(iov)) && iov.Length >= old(iov.Length)
      ensures ok == (old(iovused < iov.Length) || Answer(old(grants)))
      ensures grants == if old(iovused < iov.Length) then old(grants) else Rest(old(grants))
      ensures len == (if ok then Part(|buf|, limitToMtu, old(msgbytes)) else 0) && len <= |buf|
      ensures frames == if ok then Extend(old(frames), buf[..len]) else old(frames)
      ensures msgbytes == old(msgbytes) + len && iovused == old(iovused) + (if ok then 1 else 0)
      ensures |msgs| == |old(msgs)| && (old(iovused < iov.Length) ==> iov == old(iov))
      ensures overfull == old(overfull) + if ok && |LastOf(old(frames))| >= IOV_MAX then 1 else 0
      ensures misplaced == old(misplaced) + if ok && udp && LastOf(old(frames)) == [] then len else 0
    {
      hide Layout, Extend, Start, Sizes, Answer, Rest;
      ghost var room := frames;
      var part := if limitToMtu && |buf| + msgbytes > UDP_MAX_PAYLOAD_SIZE then UDP_MAX_PAYLOAD_SIZE - msgbytes
          else |buf|;
      SizesExtend(frames, udp, msgbytes, buf[..part]);
      ExtendSome(frames, buf[..part]);
      ok := Put(buf[..part]);
      len := if ok then part else 0;
      if ok && |LastOf(room)| >= IOV_MAX {
        overfull := overfull + 1;
      }
      if ok && udp && LastOf(room) == [] {
        misplaced := misplaced + part;
      }
    }

    /** One turn of add_iov's loop; returns how much of the data went in. */
    method AddPiece(buf: Data) returns (ok: bool, len: nat, ghost how: Opening)
      requires Standing() && frames != []
      modifies this`iov, this`iovused, this`msgs, this`msgbytes, this`msgsize, this`frames, this`grants,
               this`bare, this`overfull, this`misplaced, iov
      ensures Standing() && frames != [] && (iov == old(iov) || fresh(iov)) && len <= |buf|
      ensures Turned(buf, ok, len, how)
      ensures bare >= old(bare) && overfull >= old(overfull) && misplaced >= old(misplaced)
      ensures !udp ==> misplaced == old(misplaced) && bare == old(bare)
      ensures |Payload(frames, udp)| + misplaced == |old(Payload(frames, udp))| + old(misplaced) + len
      ensures misplaced == old(misplaced) <==> Payload(frames, udp) == old(Payload(frames, udp)) + buf[..len]
      ensures old(Built()) ==> (Built() <==> overfull == old(overfull) && bare == old(bare))
      ensures overfull > old(overfull) || !Within(old(frames)) ==> !Within(frames)
      ensures ok && old(Filled(frames)) ==> Filled(frames)
      ensures |grants| <= |old(grants)| && (len == 0 && buf != [] ==> |grants| < |old(grants)|)
      ensures ok ==> len == Part(|buf|, udp || |old(frames)| == 1, OpenedBytes(old(msgbytes), how, udp))
      ensures how == if NoMore(LastOf(old(frames)), udp || |old(frames)| == 1, old(msgbytes))
                     then OpenHow(udp, old(msgsize == |msgs|), old(iovused >= iov.Length), old(grants)) else Unopened
      ensures !ok ==> |grants| < |old(grants)| && len == 0
    {
      hide Layout, Payload, Extend, Start, Limits, Sizes, OpenHow, OpenRest, Opened, Within, Filled;
      ghost var was, bytes, asked := frames, msgbytes, grants;
      ok, len, how := TakeTurn(buf);
      RestShorter(udp, old(msgsize == |msgs|), old(iovused >= iov.Length), asked);
      RoomFacts(was, how, udp, bytes);
      TurnPayload(was, how, udp, buf[..len]);
      TurnLimits(was, how, udp, bytes, buf[..len]);
      BareNeedsUdp(udp, old(msgsize == |msgs|), old(iovused >= iov.Length), asked);
      StaysOver(was, how, udp, buf[..len]);
      StaysFilled(was, how, udp, buf[..len]);
    }

    /**
     add_iov.  The messages keep their limits exactly if no piece goes on a message of 1024 pieces and
     none is opened without its header slot; when success is reported, the data is all there exactly if
     none of it went where a slot should be.
     */
    method AddIov(buf: Data) returns (ok: bool, ghost how: Opening)
      requires Standing() && frames != []
      modifies this`iov, this`iovused, this`msgs, this`msgbytes, this`msgsize, this`frames, this`grants,
               this`bare, this`overfull, this`misplaced, iov
      ensures Standing() && frames != [] && (iov == old(iov) || fresh(iov))
      ensures bare >= old(bare) && overfull >= old(overfull) && misplaced >= old(misplaced)
      ensures old(Built()) ==> (Built() <==> overfull == old(overfull) && bare == old(bare))
      ensures ok ==> (Payload(frames, udp) == old(Payload(frames, udp)) + buf <==> misplaced == old(misplaced))
      ensures !udp ==> misplaced == old(misplaced) && bare == old(bare)
      ensures ok && old(Filled(frames)) ==> Filled(frames)
      ensures !ok ==> |grants| < |old(grants)|
      ensures how == if NoMore(LastOf(old(frames)), udp || |old(frames)| == 1, old(msgbytes))
                     then OpenHow(udp, old(msgsize == |msgs|), old(iovused >= iov.Length), old(grants)) else Unopened
      ensures Part(|buf|, udp || |old(frames)| == 1, OpenedBytes(old(msgbytes), how, udp)) == |buf| ==>
                Turned(buf, ok, if ok then |buf| else 0, how)
    {
      hide Layout, Limits, Sizes, Payload, Turned, Within, Filled;
      ghost var before := Payload(frames, udp);
      ghost var fine := Built();
      ghost var lost := misplaced;
      ghost var spilled, open := overfull, bare;
      var rest := buf;
      var len;
      ok, len, how := AddPiece(rest);
      if !ok {
        return;
      }
      Cut(before, buf, len);
      rest := rest[len..];
      ghost var h := how;
      if len == |buf| {
        return;
      }
      while |rest| > 0
        invariant Standing() && frames != [] && (iov == old(iov) || fresh(iov)) && ok
        invariant bare >= open && overfull >= spilled && misplaced >= lost && |grants| <= |old(grants)|
        invariant fine && overfull == spilled && bare == open ==> Built()
        invariant overfull > spilled ==> !Within(frames)
        invariant |Payload(frames, udp)| + misplaced + |rest| == |before| + lost + |buf|
        invariant misplaced == lost ==> Payload(frames, udp) + rest == before + buf
        invariant !udp ==> misplaced == lost && bare == open
        invariant old(Filled(frames)) ==> Filled(frames)
        decreases |grants|, |rest|
      {
        ghost var now, left := Payload(frames, udp), rest;
        ok, len, h := AddPiece(rest);
        LimitsWithin(frames, udp, msgbytes);
        if !ok {
          return;
        }
        Cut(now, left, len);
        rest := rest[len..];
      }
      LimitsWithin(frames, udp, msgbytes);
    }

    /**
     build_udp_headers, for messages that are not empty: the first piece of each becomes its header,
     whatever it was.
     */
    method BuildUdpHeaders() returns (ok: bool)
      requires Standing() && udp && Filled(frames)
      modifies this`frames, this`hdrsize, this`grants, iov
      ensures Laid() && Payload(frames, udp) == old(Payload(frames, udp)) && |frames| == |old(frames)|
      ensures old(Built()) ==> Built()
      ensures ok == (|frames| <= old(hdrsize) || Answer(old(grants))) && (!ok ==> frames == old(frames))
      ensures ok ==> forall i :: 0 <= i < |frames| ==>
                frames[i] != [] && frames[i] == [Header(requestId, i, |frames|)] + old(frames)[i][1..]
    {
      hide Layout, Limits, Payload;
      Shape(frames, msgs, iov, iov[..], iovused);
      ok := true;
      if |msgs| > hdrsize {
        ok := Grant();
        if !ok {
          return;
        }
        hdrsize := |msgs| * 2;
      }
      FillHeaders();
    }

    method FillHeaders()
      requires Laid() && udp && forall i :: 0 <= i < |frames| ==> frames[i] != []
      modifies this`frames, iov
      ensures Laid() && Payload(frames, udp) == old(Payload(frames, udp)) && |frames| == |old(frames)|
      ensures old(Limits(frames, udp, msgbytes)) ==> Limits(frames, udp, msgbytes)
      ensures forall i :: 0 <= i < |frames| ==>
                frames[i] != [] && frames[i] == [Header(requestId, i, |frames|)] + old(frames)[i][1..]
    {
      hide Layout, Start, Payload, Header, Limits;
      Shape(frames, msgs, iov, iov[..], iovused);
      ghost var were, fine := frames, Limits(frames, udp, msgbytes);
      var i := 0;
      while i < |msgs|
        invariant i <= |msgs| == |frames| == |were| && Laid() && Payload(frames, udp) == Payload(were, udp)
        invariant fine ==> Limits(frames, udp, msgbytes)
        invariant forall k :: 0 <= k < |were| ==> were[k] != []
        invariant forall k :: 0 <= k < i ==> frames[k] == [Header(requestId, k, |were|)] + were[k][1..]
        invariant forall k :: i <= k < |were| ==> frames[k] == were[k]
      {
        ghost var slots := iov[..];
        var hdr := Header(requestId, i, |msgs|);
        HeaderLaid(frames, msgs, iov, slots, iovused, i, hdr);
        HeaderPayload(frames, i, hdr);
        if fine { HeaderSlot(frames, msgbytes, i, hdr); }
        msgs[i].base[msgs[i].off] := hdr;
        assert iov[..] == slots[msgs[i].off := hdr];
        frames := frames[i := [hdr] + frames[i][1..]];
        i := i + 1;
      }
    }

    // ----- transmission

    /** While a reply goes out: frames holds what is still to be sent of each message. */
    ghost predicate Sending()
      reads this`iov, this`iovused, this`msgs, this`msgcurr, this`frames, iov
    {
      msgcurr <= |msgs| && Apart(frames, msgs, iov, iov[..], iovused)
    }

    /** All bytes still to be sent. */
    ghost function Remaining(): Data
      reads this`msgcurr, this`frames
    {
      if msgcurr <= |frames| then Wire(frames[msgcurr..]) else []
    }

    /** The message that comes next: finished ones are passed over, one at a time. */
    ghost function Current(): nat
      reads this`msgcurr, this`frames
    {
      if msgcurr < |frames| && frames[msgcurr] == [] then msgcurr + 1 else msgcurr
    }

    /** A finished reply can be sent, from its first byte. */
    lemma BuiltSends()
      requires Built() && msgcurr == 0
      ensures Sending() && Remaining() == Wire(frames) && (!udp ==> Remaining() == Payload(frames, udp))
    {
      hide Layout, Limits;
      LayoutApart(frames, msgs, iov, iov[..], iovused);
      Shape(frames, msgs, iov, iov[..], iovused);
      WireIsPayload(frames);
      assert frames[0..] == frames;
    }

    /**
     transmit, for one answer of sendmsg: how many bytes it took, that it would block (and whether
     the event loop took note), or an error.
     */
    method Transmit(res: SendResult) returns (outcome: Outcome)
      requires Sending()
      requires res.Sent? && Current() < |frames| ==> 0 < res.n <= |Join(frames[Current()])|
      modifies this`msgs, this`msgcurr, this`frames, this`sent, iov
      ensures Sending() && |frames| == |old(frames)| && msgcurr == old(Current())
      ensures sent + Remaining() == old(sent + Remaining()) && old(sent) <= sent
      ensures outcome == Complete <==> msgcurr == |frames|
      ensures outcome == Complete ==> Remaining() == []
      ensures outcome == Incomplete ==> res.Sent? && |sent| == |old(sent)| + res.n
      ensures outcome != Complete ==>
              (outcome == Incomplete <==> res.Sent?) && (outcome == SoftError <==> res == WouldBlock(true))
      ensures outcome != Incomplete ==> sent == old(sent)
    {
      hide Apart, Wire;
      Lengths(frames, msgs, iov, iov[..], iovused);
      if msgcurr < |msgs| && msgs[msgcurr].len == 0 {
        WirePass(frames, msgcurr);
        msgcurr := msgcurr + 1;
      }
      if msgcurr == |msgs| {
        WireEnd(frames);
        return Complete;
      }
      match res
      case Sent(n) =>
        SendSome(n);
        return Incomplete;
      case WouldBlock(listening) => return if listening then SoftError else HardError;
      case Broken => return HardError;
    }

    /** The kernel took n bytes of the current message. */
    method SendSome(n: nat)
      requires Sending() && msgcurr < |frames| && 0 < n <= |Join(frames[msgcurr])|
      modifies this`msgs, this`frames, this`sent, iov
      ensures Sending() && |frames| == |old(frames)|
      ensures sent + Remaining() == old(sent + Remaining()) && old(sent) <= sent && |sent| == |old(sent)| + n
    {
      hide Apart, Wire, Join, Covers;
      Lengths(frames, msgs, iov, iov[..], iovused);
      ghost var f0, slots, msgs0 := frames[msgcurr], iov[..], msgs;
      var m := msgs[msgcurr];
      ghost var f := f0;
      Near(frames, msgs, iov, slots, iovused, msgcurr);
      ghost var gone: Data := [];
      var left: nat := n;
      Begin(f0);
      while m.len > 0 && left >= |m.base[m.off]|
        invariant m.base == iov && iov[..] == slots && Covers(m, f, iov, slots, m.off, iovused) && |f| == m.len &&
                  m.off + m.len <= iov.Length
        invariant msgs == msgs0 && frames == old(frames) && sent == old(sent)
        invariant msgs0[msgcurr].off <= m.off && m.off + m.len == msgs0[msgcurr].off + msgs0[msgcurr].len
        invariant gone + Join(f) == Join(f0) && |gone| + left == n
        decreases m.len
      {
        PieceGone(m, f, iov, slots, iovused, gone);
        gone := gone + f[0];
        left := left - |m.base[m.off]|;
        m := m.(len := m.len - 1, off := m.off + 1);
        f := f[1..];
      }
      if left > 0 {
        PartGone(m, f, iov, slots, iovused, gone, left, |Join(f0)|);
        gone := gone + f[0][..left];
        m.base[m.off] := m.base[m.off][left..];
        assert iov[..] == slots[m.off := slots[m.off][left..]];
        f := [f[0][left..]] + f[1..];
      }
      msgs := msgs[msgcurr := m];
      Advanced(frames, msgs0, iov, slots, iovused, msgcurr, m, f, iov[..], if f == [] then [] else f[0]);
      WireAdvanced(frames, msgcurr, f, gone, sent);
      frames := frames[msgcurr := f];
      sent := sent + gone;
    }

    /** The sending loop of drive_machine, for any answers of sendmsg. */
    method SendReply() returns (outcome: Outcome)
      requires Sending()
      modifies this`msgs, this`msgcurr, this`frames, this`sent, iov
      ensures Sending() && |frames| == |old(frames)| && outcome != Incomplete
      ensures sent + Remaining() == old(sent + Remaining())
      ensures outcome == Complete ==> sent == old(sent + Remaining())
    {
      hide Apart, Wire, Join;
      outcome := Incomplete;
      ghost var all := sent + Remaining();
      while outcome == Incomplete
        invariant Sending() && |frames| == |old(frames)| && sent + Remaining() == all
        invariant outcome == Complete ==> Remaining() == []
        decreases outcome == Incomplete, |Remaining()|
      {
        Lengths(frames, msgs, iov, iov[..], iovused);
        var res := Sendmsg();
        ghost var before, rest := sent, Remaining();
        outcome := Transmit(res);
        assert |sent| + |Remaining()| == |before| + |rest|;
      }
    }

    /** Any answer the kernel may give for the message that comes next. */
    method Sendmsg() returns (res: SendResult)
      requires Sending()
      ensures res.Sent? && Current() < |frames| ==> 0 < res.n <= |Join(frames[Current()])|
    {
      hide Join, Wire;
      var c := if msgcurr < |msgs| && msgs[msgcurr].len == 0 then msgcurr + 1 else msgcurr;
      var n: nat := *;
      var listening: bool := *;
      res := WouldBlock(listening);
      Lengths(frames, msgs, iov, iov[..], iovused);
      if c < |msgs| {
        var m := msgs[c];
        Near(frames, msgs, iov, iov[..], iovused, c);
        if 0 < n <= |Join(m.base[m.off..m.off + m.len])| {
          return Sent(n);
        }
      }
      if * {
        return Broken;
      }
    }
  }

  datatype SendResult = Sent(n: nat) | WouldBlock(listening: bool) | Broken

  datatype Outcome = Complete | Incomplete | SoftError | HardError

  /** The header of datagram i out of count: request, number, count, and two spare bytes. */
  function Header(requestId: nat, i: nat, count: nat): (h: Data)
    ensures |h| == UDP_HEADER_SIZE && forall j :: 0 <= j < |h| ==> 0 <= h[j] < 256
    ensures requestId < 0x1_0000 ==> 256 * h[0] + h[1] == requestId
    ensures i < 0x1_0000 ==> 256 * h[2] + h[3] == i
    ensures count < 0x1_0000 ==> 256 * h[4] + h[5] == count
    ensures h[6] == h[7] == 0
  {
    [requestId / 256 % 256, requestId % 256, i / 256 % 256, i % 256, count / 256 % 256, count % 256, 0, 0]
  }

  lemma Cut(a: Data, b: Data, n: nat)
    requires n <= |b|
    ensures a + b[..n] + b[n..] == a + b
  {
    assert b == b[..n] + b[n..];
  }

  lemma StartZero(frames: seq<Frame>)
    ensures Start(frames, 0) == 0
  {
  }

  lemma Fits(frames: seq<Frame>, msgs: seq<Msghdr>, base: array<Data>, slots: seq<Data>, used: nat)
    requires Layout(frames, msgs, base, slots, used)
    ensures used <= |slots|
  {
  }

  lemma Shape(frames: seq<Frame>, msgs: seq<Msghdr>, base: array<Data>, slots: seq<Data>, used: nat)
    requires Layout(frames, msgs, base, slots, used)
    ensures |msgs| == |frames| && used <= |slots|
    ensures forall i :: 0 <= i < |msgs| ==> msgs[i] == Msghdr(base, Start(frames, i), |frames[i]|)
  {
    hide Start;
    assert forall i :: 0 <= i < |msgs| ==> Covers(msgs[i], frames[i], base, slots, Start(frames, i), used);
  }

  lemma ExtendEmpty(frames: seq<Frame>, p: Data)
    ensures Extend(frames + [[]], p) == frames + [[p]]
  {
    assert (frames + [[]])[|frames|] + [p] == [p];
  }

  lemma ExtendSome(frames: seq<Frame>, p: Data)
    requires frames != []
    ensures |Extend(frames, p)| == |frames|
  {
  }

  lemma RestNotLonger(grants: seq<bool>)
    ensures |Rest(grants)| <= |grants| && (!Answer(grants) ==> |Rest(grants)| < |grants|)
  {
  }

  lemma BareNeedsUdp(udp: bool, tight: bool, full: bool, grants: seq<bool>)
    ensures OpenHow(udp, tight, full, grants).Bare? ==> udp
  {
  }

  lemma RestShorter(udp: bool, tight: bool, full: bool, grants: seq<bool>)
    ensures |OpenRest(udp, tight, full, grants)| <= |grants|
    ensures !OpenHow(udp, tight, full, grants).Whole? ==> |OpenRest(udp, tight, full, grants)| < |grants|
  {
  }

  lemma RoomFacts(was: seq<Frame>, how: Opening, udp: bool, bytes: nat)
    requires was != []
    ensures var room := Opened(was, how, udp);
            && room != [] && |room| >= |was| && (how.Unopened? <==> |room| == |was|)
            && (how.Whole? ==> LastOf(room) == NewFrame(udp)) && (how.Bare? ==> LastOf(room) == [])
            && (how.Unopened? ==> room == was)
  {
  }

  /** What a turn does to the data: it goes in, unless it goes where a header slot should be. */
  lemma TurnPayload(was: seq<Frame>, how: Opening, udp: bool, p: Data)
    requires was != []
    ensures var room := Opened(was, how, udp);
            && room != [] && Payload(room, udp) == Payload(was, udp)
            && Payload(Extend(room, p), udp) == Payload(was, udp) + (if udp && LastOf(room) == [] then [] else p)
  {
    hide Payload, Extend;
    var room := Opened(was, how, udp);
    RoomFacts(was, how, udp, 0);
    if !how.Unopened? { PayloadOpen(was, udp, LastOf(room)); }
    if udp && LastOf(room) == [] {
      PayloadBare(room, p);
    } else {
      PayloadExtend(room, udp, p);
    }
  }

  /** The first piece of a message without a slot is taken for its header. */
  lemma PayloadBare(frames: seq<Frame>, p: Data)
    requires frames != [] && LastOf(frames) == []
    ensures Payload(Extend(frames, p), true) == Payload(frames, true)
  {
    var n := |frames| - 1;
    assert Extend(frames, p)[..n] == frames[..n];
    assert ([] + [p])[1..] == [];
  }

  /** What a turn does to the limits: they hold unless the piece goes on a message of 1024. */
  lemma TurnLimits(was: seq<Frame>, how: Opening, udp: bool, bytes: nat, p: Data)
    requires was != []
    requires udp || |was| == 1 ==> OpenedBytes(bytes, how, udp) + |p| <= UDP_MAX_PAYLOAD_SIZE
    ensures var room, mb := Opened(was, how, udp), OpenedBytes(bytes, how, udp);
            room != [] && (Limits(was, udp, bytes) && !how.Bare? ==>
              && Limits(room, udp, mb)
              && (Limits(Extend(room, p), udp, mb + |p|) <==> |LastOf(room)| < IOV_MAX))
  {
    hide Limits, Extend;
    var room, mb := Opened(was, how, udp), OpenedBytes(bytes, how, udp);
    RoomFacts(was, how, udp, bytes);
    if Limits(was, udp, bytes) && !how.Bare? {
      if how.Whole? { LimitsOpen(was, udp, bytes); }
      if |LastOf(room)| < IOV_MAX {
        LimitsExtend(room, udp, mb, p);
      } else {
        LimitsBreak(room, udp, mb, p);
      }
    }
  }

  /** A message with too many pieces keeps them. */
  lemma StaysOver(was: seq<Frame>, how: Opening, udp: bool, p: Data)
    requires was != []
    ensures var room := Opened(was, how, udp);
            && room != [] && (|LastOf(room)| >= IOV_MAX ==> !Within(Extend(room, p)))
            && (!Within(was) ==> !Within(room) && !Within(Extend(room, p)))
  {
    var room := Opened(was, how, udp);
    var g := Extend(room, p);
    assert |LastOf(room)| >= IOV_MAX ==> |g[|g| - 1]| > IOV_MAX;
    if !Within(was) {
      var i :| 0 <= i < |was| && |was[i]| > IOV_MAX;
      assert room[i] == was[i] && |g[i]| >= |room[i]|;
    }
  }

  /** A turn leaves no message empty. */
  lemma StaysFilled(was: seq<Frame>, how: Opening, udp: bool, p: Data)
    requires was != []
    ensures var room := Opened(was, how, udp); room != [] && (Filled(was) ==> Filled(Extend(room, p)))
  {
  }

  lemma LimitsWithin(frames: seq<Frame>, udp: bool, msgbytes: nat)
    ensures Limits(frames, udp, msgbytes) ==> Within(frames)
  {
  }

  lemma LimitsBreak(frames: seq<Frame>, udp: bool, msgbytes: nat, p: Data)
    requires frames != [] && |LastOf(frames)| >= IOV_MAX
    ensures !Limits(Extend(frames, p), udp, msgbytes + |p|)
  {
    var g := Extend(frames, p);
    assert |g[|g| - 1]| > IOV_MAX;
  }

  lemma Capped(frames: seq<Frame>, udp: bool, msgbytes: nat)
    requires Sizes(frames, udp, msgbytes) && frames != []
    ensures udp || |frames| == 1 ==> msgbytes <= UDP_MAX_PAYLOAD_SIZE
  {
    hide Join;
  }

  // ----- header slots

  lemma HeaderLaid(frames: seq<Frame>, msgs: seq<Msghdr>, base: array<Data>, slots: seq<Data>, used: nat, i: nat,
      hdr: Data)
    requires Layout(frames, msgs, base, slots, used) && i < |frames| && frames[i] != []
    ensures |msgs| == |frames| && msgs[i].base == base && msgs[i].off < |slots|
    ensures Layout(frames[i := [hdr] + frames[i][1..]], msgs, base, slots[msgs[i].off := hdr], used)
  {
    hide Covers, Start;
    var g := frames[i := [hdr] + frames[i][1..]];
    Shape(frames, msgs, base, slots, used);
    SameStarts(frames, g);
    assert Covers(msgs[i], frames[i], base, slots, Start(frames, i), used);
    CoversInside(msgs[i], frames[i], base, slots, Start(frames, i), used);
    forall k | 0 <= k < |msgs|
      ensures Covers(msgs[k], g[k], base, slots[msgs[i].off := hdr], Start(g, k), used)
    {
      if k == i {
        CoversHead(msgs[i], frames[i], base, slots, Start(frames, i), used, hdr);
      } else {
        StartsApart(frames, i, k);
        CoversElsewhere(msgs[k], frames[k], base, slots, Start(frames, k), used, msgs[i].off, hdr);
      }
    }
  }

  lemma SameStarts(frames: seq<Frame>, g: seq<Frame>)
    requires |g| == |frames| && forall k :: 0 <= k < |g| ==> |g[k]| == |frames[k]|
    ensures forall k :: 0 <= k <= |g| ==> Start(g, k) == Start(frames, k)
  {
    forall k | 0 <= k <= |g|
      ensures Start(g, k) == Start(frames, k)
    {
      StartSame(g, frames, k);
    }
  }

  lemma StartsApart(frames: seq<Frame>, i: nat, k: nat)
    requires i < |frames| && k < |frames| && i != k && frames[i] != []
    ensures Start(frames, i) < Start(frames, k) || Start(frames, k) + |frames[k]| <= Start(frames, i)
  {
    hide Start;
    StartNext(frames, i);
    StartNext(frames, k);
    if i < k { StartRises(frames, i + 1, k); } else { StartRises(frames, k + 1, i); }
  }

  lemma {:induction false} StartRises(frames: seq<Frame>, i: nat, k: nat)
    requires i <= k <= |frames|
    ensures Start(frames, i) <= Start(frames, k)
    decreases k
  {
    if i < k { StartRises(frames, i, k - 1); }
  }

  lemma CoversInside(m: Msghdr, f: Frame, base: array<Data>, slots: seq<Data>, start: nat, used: nat)
    requires Covers(m, f, base, slots, start, used) && f != []
    ensures m.off < |slots| && slots[m.off] == f[0]
  {
    assert slots[start..start + |f|][0] == f[0];
  }

  lemma CoversHead(m: Msghdr, f: Frame, base: array<Data>, slots: seq<Data>, start: nat, used: nat, p: Data)
    requires Covers(m, f, base, slots, start, used) && f != []
    ensures m.off < |slots| && Covers(m, [p] + f[1..], base, slots[m.off := p], start, used)
  {
    var now := slots[m.off := p];
    assert slots[start..start + |f|][1..] == f[1..];
    assert now[start..start + |f|] == [p] + slots[start + 1..start + |f|];
  }

  lemma CoversElsewhere(m: Msghdr, f: Frame, base: array<Data>, slots: seq<Data>, start: nat, used: nat, at: nat,
      p: Data)
    requires Covers(m, f, base, slots, start, used) && at < |slots| && (at < start || start + |f| <= at)
    ensures Covers(m, f, base, slots[at := p], start, used)
  {
    assert slots[at := p][start..start + |f|] == slots[start..start + |f|];
  }

  lemma HeaderPayload(frames: seq<Frame>, i: nat, hdr: Data)
    requires i < |frames| && frames[i] != []
    ensures Payload(frames[i := [hdr] + frames[i][1..]], true) == Payload(frames, true)
  {
    var f := frames[i];
    var h := [hdr] + f[1..];
    assert h[1..] == f[1..];
    hide Join;
    assert Body(h, true) == Body(f, true);
    PayloadSame(frames, i, h);
  }

  lemma HeaderSlot(frames: seq<Frame>, msgbytes: nat, i: nat, hdr: Data)
    requires Limits(frames, true, msgbytes) && i < |frames| && |hdr| == UDP_HEADER_SIZE
    ensures frames[i] != [] && Limits(frames[i := [hdr] + frames[i][1..]], true, msgbytes)
  {
    var f := frames[i];
    assert Datagram(f);
    var h := [hdr] + f[1..];
    assert h[1..] == f[1..];
    assert Join(h) == hdr + Join(f[1..]) && Join(f) == f[0] + Join(f[1..]);
    hide Join;
  }

  lemma {:induction false} PayloadSame(frames: seq<Frame>, i: nat, h: Frame)
    requires i < |frames| && Body(h, true) == Body(frames[i], true)
    ensures Payload(frames[i := h], true) == Payload(frames, true)
  {
    var n := |frames| - 1;
    if i < n {
      PayloadSame(frames[..n], i, h);
      assert frames[i := h][..n] == frames[..n][i := h];
    } else {
      assert frames[i := h][..n] == frames[..n];
    }
  }

  // ----- what is left while sending

  /** The headers cover the frames, in order and without meeting. */
  ghost predicate Apart(frames: seq<Frame>, msgs: seq<Msghdr>, base: array<Data>, slots: seq<Data>, used: nat) {
    && |msgs| == |frames| && used <= |slots|
    && (forall i :: 0 <= i < |msgs| ==> Covers(msgs[i], frames[i], base, slots, msgs[i].off, used))
    && (forall i, j :: 0 <= i < j < |msgs| ==> msgs[i].off + msgs[i].len <= msgs[j].off)
  }

  lemma LayoutApart(frames: seq<Frame>, msgs: seq<Msghdr>, base: array<Data>, slots: seq<Data>, used: nat)
    requires Layout(frames, msgs, base, slots, used)
    ensures Apart(frames, msgs, base, slots, used)
  {
    hide Start, Covers;
    Shape(frames, msgs, base, slots, used);
    forall i, j | 0 <= i < j < |msgs|
      ensures msgs[i].off + msgs[i].len <= msgs[j].off
    {
      StartNext(frames, i);
      StartRises(frames, i + 1, j);
    }
    forall i | 0 <= i < |msgs|
      ensures Covers(msgs[i], frames[i], base, slots, msgs[i].off, used)
    {
      assert Covers(msgs[i], frames[i], base, slots, Start(frames, i), used);
    }
  }

  lemma Lengths(frames: seq<Frame>, msgs: seq<Msghdr>, base: array<Data>, slots: seq<Data>, used: nat)
    requires Apart(frames, msgs, base, slots, used)
    ensures |msgs| == |frames| && forall i :: 0 <= i < |msgs| ==> msgs[i].len == |frames[i]|
  {
  }

  lemma Near(frames: seq<Frame>, msgs: seq<Msghdr>, base: array<Data>, slots: seq<Data>, used: nat, c: nat)
    requires Apart(frames, msgs, base, slots, used) && c < |frames|
    ensures c < |msgs| && Covers(msgs[c], frames[c], base, slots, msgs[c].off, used) && msgs[c].base == base &&
            msgs[c].len == |frames[c]|
    ensures msgs[c].off + msgs[c].len <= |slots| && slots[msgs[c].off..msgs[c].off + msgs[c].len] == frames[c]
  {
  }

  lemma Begin(f: Frame)
    ensures [] + Join(f) == Join(f)
  {
  }

  lemma PieceGone(m: Msghdr, f: Frame, base: array<Data>, slots: seq<Data>, used: nat, gone: Data)
    requires Covers(m, f, base, slots, m.off, used) && f != []
    ensures m.off < |slots| && slots[m.off] == f[0]
    ensures Covers(m.(len := m.len - 1, off := m.off + 1), f[1..], base, slots, m.off + 1, used)
    ensures gone + f[0] + Join(f[1..]) == gone + Join(f)
  {
    CoversInside(m, f, base, slots, m.off, used);
    assert slots[m.off..m.off + |f|][1..] == slots[m.off + 1..m.off + |f|];
    assert Join(f) == f[0] + Join(f[1..]);
    Assoc(gone, f[0], Join(f[1..]));
  }

  lemma PartGone(m: Msghdr, f: Frame, base: array<Data>, slots: seq<Data>, used: nat, gone: Data, left: nat, total: nat)
    requires Covers(m, f, base, slots, m.off, used) && left > 0 && |gone| + left <= total == |gone + Join(f)|
    requires f == [] || left < |slots[m.off]|
    ensures f != [] && m.off < |slots| && slots[m.off] == f[0] && left < |f[0]|
    ensures Covers(m, [f[0][left..]] + f[1..], base, slots[m.off := slots[m.off][left..]], m.off, used)
    ensures gone + f[0][..left] + Join([f[0][left..]] + f[1..]) == gone + Join(f)
  {
    assert f != [];
    CoversInside(m, f, base, slots, m.off, used);
    CoversHead(m, f, base, slots, m.off, used, f[0][left..]);
    JoinSplit(f, left);
    hide Join, Covers;
    Assoc(gone, f[0][..left], Join([f[0][left..]] + f[1..]));
  }

  lemma JoinSplit(f: Frame, left: nat)
    requires f != [] && left <= |f[0]|
    ensures Join(f) == f[0][..left] + Join([f[0][left..]] + f[1..])
  {
    hide Join;
    var g := [f[0][left..]] + f[1..];
    JoinHead(f);
    JoinHead(g);
    assert g[1..] == f[1..];
    assert f[0] == f[0][..left] + f[0][left..];
    Assoc(f[0][..left], f[0][left..], Join(f[1..]));
  }

  lemma JoinHead(f: Frame)
    requires f != []
    ensures Join(f) == f[0] + Join(f[1..])
  {
  }

  lemma Advanced(frames: seq<Frame>, msgs: seq<Msghdr>, base: array<Data>, slots: seq<Data>, used: nat, c: nat,
      m: Msghdr, f: Frame, slots': seq<Data>, p: Data)
    requires Apart(frames, msgs, base, slots, used) && c < |msgs| && Covers(m, f, base, slots', m.off, used)
    requires msgs[c].off <= m.off && m.off + m.len == msgs[c].off + msgs[c].len
    requires slots' == slots || (m.len > 0 && m.off < |slots| && slots' == slots[m.off := p])
    ensures Apart(frames[c := f], msgs[c := m], base, slots', used)
  {
    var ms, fs := msgs[c := m], frames[c := f];
    forall i | 0 <= i < |ms|
      ensures Covers(ms[i], fs[i], base, slots', ms[i].off, used)
    {
      if i != c && slots' != slots {
        CoversElsewhere(msgs[i], frames[i], base, slots, msgs[i].off, used, m.off, p);
      }
    }
  }

  lemma WirePass(frames: seq<Frame>, c: nat)
    requires c < |frames| && frames[c] == []
    ensures Wire(frames[c..]) == Wire(frames[c + 1..])
  {
    assert frames[c..][1..] == frames[c + 1..];
  }

  lemma WireEnd(frames: seq<Frame>)
    ensures Wire(frames[|frames|..]) == []
  {
  }

  lemma WireAdvanced(frames: seq<Frame>, c: nat, f: Frame, gone: Data, sent: Data)
    requires c < |frames| && gone + Join(f) == Join(frames[c])
    ensures sent + gone + Wire(frames[c := f][c..]) == sent + Wire(frames[c..])
  {
    var g := frames[c := f];
    assert g[c..][1..] == frames[c + 1..] == frames[c..][1..];
    var rest := Wire(frames[c + 1..]);
    assert Wire(g[c..]) == Join(f) + rest;
    assert Wire(frames[c..]) == Join(frames[c]) + rest;
    hide Wire, Join;
    Assoc(gone, Join(f), rest);
    Assoc(sent, gone, Join(f) + rest);
  }
}
