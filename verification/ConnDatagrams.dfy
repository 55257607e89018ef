/** What the headers are for: the client puts the datagrams of a UDP reply together again. */
module ConnDatagrams {
  import opened ConnOut

  /** The bytes of each message, as one datagram. */
  function Datagrams(frames: seq<Frame>): (ds: seq<Data>)
    ensures |ds| == |frames|
  {
    seq(|frames|, i requires 0 <= i < |frames| => Join(frames[i]))
  }

  // ----- the client: it knows the datagrams alone

  predicate Headed(d: Data) { |d| >= UDP_HEADER_SIZE }

  function RequestOf(d: Data): int
    requires Headed(d)
  {
    256 * d[0] + d[1]
  }

  function NumberOf(d: Data): int
    requires Headed(d)
  {
    256 * d[2] + d[3]
  }

  function CountOf(d: Data): int
    requires Headed(d)
  {
    256 * d[4] + d[5]
  }

  /** What the first datagram with number i carries. */
  function Carried(ds: seq<Data>, i: nat): Data {
    if ds == [] then []
    else if Headed(ds[0]) && NumberOf(ds[0]) == i then ds[0][UDP_HEADER_SIZE..]
    else Carried(ds[1..], i)
  }

  function InOrder(ds: seq<Data>, n: nat): Data {
    if n == 0 then [] else InOrder(ds, n - 1) + Carried(ds, n - 1)
  }

  /** The reply is there when as many datagrams have come as each of them says. */
  predicate AllThere(ds: seq<Data>, requestId: nat) {
    ds != [] && forall d :: d in ds ==> Headed(d) && RequestOf(d) == requestId && CountOf(d) == |ds|
  }

  // ----- what the server has sent

  /** As build_udp_headers leaves the messages. */
  ghost predicate Numbered(frames: seq<Frame>, requestId: nat) {
    forall i :: 0 <= i < |frames| ==> frames[i] != [] && frames[i][0] == Header(requestId, i, |frames|)
  }

  lemma DatagramIs(frames: seq<Frame>, requestId: nat, i: nat)
    requires Numbered(frames, requestId) && i < |frames| < 0x1_0000 && requestId < 0x1_0000
    ensures var d := Datagrams(frames)[i];
            && Headed(d) && RequestOf(d) == requestId && NumberOf(d) == i && CountOf(d) == |frames|
            && d[UDP_HEADER_SIZE..] == Body(frames[i], true)
  {
    hide Header;
    JoinHead(frames[i]);
    var h := Header(requestId, i, |frames|);
    assert (h + Join(frames[i][1..]))[UDP_HEADER_SIZE..] == Join(frames[i][1..]);
  }

  /** In whatever order the datagrams come, the one numbered i is the i-th. */
  lemma {:induction false} CarriedIs(ds: seq<Data>, i: nat, d: Data)
    requires d in ds && Headed(d) && NumberOf(d) == i
    requires forall e :: e in ds && Headed(e) && NumberOf(e) == i ==> e == d
    ensures Carried(ds, i) == d[UDP_HEADER_SIZE..]
  {
    if !(Headed(ds[0]) && NumberOf(ds[0]) == i) {
      assert ds == [ds[0]] + ds[1..];
      CarriedIs(ds[1..], i, d);
    }
  }

  ghost predicate Arrived(frames: seq<Frame>, ds: seq<Data>) { multiset(ds) == multiset(Datagrams(frames)) }

  lemma ArrivedSame(frames: seq<Frame>, ds: seq<Data>)
    requires Arrived(frames, ds)
    ensures |ds| == |frames|
    ensures forall d :: d in ds <==> exists i :: 0 <= i < |frames| && Datagrams(frames)[i] == d
  {
    var all := Datagrams(frames);
    assert |multiset(ds)| == |ds| && |multiset(all)| == |all|;
    forall d
      ensures d in ds <==> exists i :: 0 <= i < |frames| && all[i] == d
    {
      assert d in ds <==> d in multiset(ds);
      assert d in all <==> d in multiset(all);
    }
  }

  lemma OneCarried(frames: seq<Frame>, requestId: nat, ds: seq<Data>, i: nat)
    requires Numbered(frames, requestId) && i < |frames| < 0x1_0000 && requestId < 0x1_0000 && Arrived(frames, ds)
    ensures Carried(ds, i) == Body(frames[i], true)
  {
    hide Datagrams, Numbered, Headed, NumberOf, RequestOf, CountOf, Carried, Arrived;
    ArrivedSame(frames, ds);
    DatagramIs(frames, requestId, i);
    var d := Datagrams(frames)[i];
    forall e | e in ds && Headed(e) && NumberOf(e) == i
      ensures e == d
    {
      var j :| 0 <= j < |frames| && Datagrams(frames)[j] == e;
      DatagramIs(frames, requestId, j);
    }
    CarriedIs(ds, i, d);
  }

  lemma {:induction false} PrefixRead(frames: seq<Frame>, requestId: nat, ds: seq<Data>, n: nat)
    requires Numbered(frames, requestId) && n <= |frames| < 0x1_0000 && requestId < 0x1_0000 && Arrived(frames, ds)
    ensures InOrder(ds, n) == Payload(frames[..n], true)
  {
    if n > 0 {
      PrefixRead(frames, requestId, ds, n - 1);
      OneCarried(frames, requestId, ds, n - 1);
      assert frames[..n][..n - 1] == frames[..n - 1];
    }
  }

  /**
   The datagrams of a built reply, in any order: the client sees that it has them all, and their bodies by
   number are the data of the reply.
   */
  lemma ReplyRead(frames: seq<Frame>, requestId: nat, ds: seq<Data>)
    requires frames != [] && Numbered(frames, requestId) && |frames| < 0x1_0000 && requestId < 0x1_0000
    requires Arrived(frames, ds)
    ensures AllThere(ds, requestId) && InOrder(ds, |ds|) == Payload(frames, true)
  {
    hide Datagrams, Numbered, Headed, NumberOf, RequestOf, CountOf, InOrder, Arrived;
    ArrivedSame(frames, ds);
    forall d | d in ds
      ensures Headed(d) && RequestOf(d) == requestId && CountOf(d) == |ds|
    {
      var j :| 0 <= j < |frames| && Datagrams(frames)[j] == d;
      DatagramIs(frames, requestId, j);
    }
    PrefixRead(frames, requestId, ds, |frames|);
    assert frames[..|frames|] == frames;
  }
}
