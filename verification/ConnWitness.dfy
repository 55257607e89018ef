/**
 Connections on which a promise is broken: a command that is never handed over, and replies in which a
 refused request for memory, ignored by add_iov, does harm although success is reported.
 */
module ConnWitness {
  import opened ConnOut
  import ConnIn

  /** A complete line, then the end of the stream: the line is received and never handed over. */
  method LostLine(decide: ConnIn.Decide) returns (c: ConnIn.Conn, ghost last: ConnIn.Answer)
    ensures fresh(c) && c.Valid() && c.decide == decide && c.state == ConnIn.Closing
    ensures c.received == "v\n" && c.log == [] && ConnIn.Parsed(decide, c.received).events != []
  {
    var sfd := new ConnIn.Socket([ConnIn.Bytes("v\n"), ConnIn.Eof], [], []);
    c := new ConnIn.Conn(decide, sfd, ConnIn.DATA_BUFFER_SIZE);
    assert c.log == [];
    Ending();
    assert c.Ends();
    last := c.DriveMachine();
    assert c.received == "v\n";
  }

  lemma Ending()
    ensures ConnIn.Upcoming([ConnIn.Bytes("v\n"), ConnIn.Eof]) == "v\n"
    ensures ConnIn.Ending([ConnIn.Bytes("v\n"), ConnIn.Eof]) == ConnIn.Eof
  {
    var script := [ConnIn.Bytes("v\n"), ConnIn.Eof];
    assert script[1..] == [ConnIn.Eof];
  }

  /** A message of 1024 pieces gets one more, because no other could be opened. */
  method OverfullMessage() returns (o: Outbox, ok: bool)
    ensures fresh(o) && ok && !o.udp && |o.frames| == 1 && |o.frames[0]| == IOV_MAX + 1 && o.overfull == 1 && !o.Built()
  {
    hide Layout, Limits, Sizes, Payload;
    o := new Outbox(false, 0, 2000, 1, [false]);
    ghost var how;
    ok, how := o.AddMsghdr();
    var i := 0;
    while i < IOV_MAX
      invariant 0 <= i <= IOV_MAX && fresh(o) && fresh(o.iov) && o.Standing() && o.Built() && !o.udp && o.overfull == 0
      invariant |o.frames| == |o.msgs| == 1 && |o.frames[0]| == o.msgbytes == o.iovused == i
      invariant o.msgsize == 1 && o.grants == [false] && o.iov.Length >= 2000
    {
      ok, how := o.AddIov([0]);
      i := i + 1;
    }
    ok, how := o.AddIov([0]);
  }

  /**
   Two lots of data are accepted; the byte of the second lies where a header slot should be and is
   not sent as data.
   */
  method MisplacedByte() returns (o: Outbox, ok: bool, again: bool)
    ensures fresh(o) && o.udp && ok && again && |o.frames| == 2 && o.frames[1] == [[1]] && o.misplaced == 1 &&
            o.bare == 1
    ensures Payload(o.frames, true) == Zeros() != Zeros() + [1]
  {
    hide Layout, Limits, Sizes, Payload;
    o := new Outbox(true, 0, 2, 2, [false]);
    ghost var how;
    ok, how := o.AddMsghdr();
    assert how == Whole && o.frames == [NewFrame(true)] && o.msgbytes == UDP_HEADER_SIZE;
    NoData();
    ok, how := o.AddIov(Zeros());
    assert how == Unopened && ok && |o.frames| == 1 && |LastOf(o.frames)| == 2;
    assert o.msgbytes == UDP_MAX_PAYLOAD_SIZE && o.iovused == o.iov.Length == 2 && o.grants == [false];
    ghost var was := o.frames;
    again, how := o.AddIov([1]);
    assert how == Bare && [1][..1] == [1];
    TurnPayload(was, how, true, [1]);
    ExtendEmpty(was, [1]);
  }

  function Zeros(): (d: Data)
    ensures |d| == UDP_MAX_PAYLOAD_SIZE - UDP_HEADER_SIZE
  {
    seq(UDP_MAX_PAYLOAD_SIZE - UDP_HEADER_SIZE, i => 0)
  }

  lemma NoData()
    ensures forall d: Data :: Payload([NewFrame(true)], true) + d == d
  {
    PayloadOpen([], true, NewFrame(true));
    assert [] + [NewFrame(true)] == [NewFrame(true)];
  }
}
