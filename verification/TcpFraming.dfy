/**
 Messages over a byte stream (examples/tcp_lcr.cpp): the sender writes the bytes of each message struct, the
 receiver gets the stream cut into chunks in any way and takes whole structs off it.
 */
module TcpFraming {

  newtype Byte = x: int | 0 <= x < 256

  type Bytes = seq<Byte>

  /** message_type_t and whatever else the four bytes of the type can hold. */
  datatype Kind = Unknown | Elect | Token | Other(code: nat)

  datatype Message = Message(kind: Kind, id: Bytes)

  const ID_SIZE: nat := 16
  const TYPE_SIZE: nat := 4
  const SIZE: nat := TYPE_SIZE + ID_SIZE
  const CODES: nat := 0x1_0000_0000

  predicate ValidMessage(m: Message) {
    |m.id| == ID_SIZE && (m.kind.Other? ==> 2 < m.kind.code < CODES)
  }

  function CodeOf(k: Kind): (c: nat)
    requires k.Other? ==> 2 < k.code < CODES
    ensures c < CODES && KindOf(c) == k
    ensures (c == 0 <==> k == Unknown) && (c == 1 <==> k == Elect) && (c == 2 <==> k == Token)
  {
    match k
    case Unknown => 0
    case Elect => 1
    case Token => 2
    case Other(code) => code
  }

  function KindOf(c: nat): Kind {
    if c == 0 then Unknown else if c == 1 then Elect else if c == 2 then Token else Other(c)
  }

  /** Four bytes, least significant first; any fixed order would do. */
  function Bytes4(c: nat): (b: Bytes)
    requires c < CODES
    ensures |b| == TYPE_SIZE
  {
    var c1 := c / 256;
    var c2 := c1 / 256;
    [(c % 256) as Byte, (c1 % 256) as Byte, (c2 % 256) as Byte, (c2 / 256) as Byte]
  }

  function Number4(b: Bytes): (c: nat)
    requires |b| == TYPE_SIZE
    ensures c < CODES
  {
    b[0] as nat + 256 * (b[1] as nat + 256 * (b[2] as nat + 256 * b[3] as nat))
  }

  function Encode(m: Message): (b: Bytes)
    requires ValidMessage(m)
    ensures |b| == SIZE
  {
    Bytes4(CodeOf(m.kind)) + m.id
  }

  function Decode(b: Bytes): (m: Message)
    requires |b| == SIZE
    ensures ValidMessage(m)
  {
    Message(KindOf(Number4(b[..TYPE_SIZE])), b[TYPE_SIZE..])
  }

  lemma NumberRoundTrip(c: nat)
    requires c < CODES
    ensures Number4(Bytes4(c)) == c
  {}

  lemma RoundTrip(m: Message)
    requires ValidMessage(m)
    ensures Decode(Encode(m)) == m
  {
    NumberRoundTrip(CodeOf(m.kind));
    assert Encode(m)[..TYPE_SIZE] == Bytes4(CodeOf(m.kind));
    assert Encode(m)[TYPE_SIZE..] == m.id;
  }

  // ---------------------------------------------------------------- streams

  function EncodeAll(ms: seq<Message>): Bytes
    requires forall m | m in ms :: ValidMessage(m)
  {
    if ms == [] then [] else Encode(ms[0]) + EncodeAll(ms[1..])
  }

  /** The whole messages at the front of a stream ... */
  function DecodeAll(b: Bytes): seq<Message> {
    if |b| < SIZE then [] else [Decode(b[..SIZE])] + DecodeAll(b[SIZE..])
  }

  /** ... and what is left behind them. */
  function Leftover(b: Bytes): (r: Bytes)
    ensures |r| < SIZE
  {
    if |b| < SIZE then b else Leftover(b[SIZE..])
  }

  /** Later bytes do not change what has been decoded: they continue from the leftover. */
  lemma {:induction false} DecodeConcat(a: Bytes, b: Bytes)
    ensures DecodeAll(a + b) == DecodeAll(a) + DecodeAll(Leftover(a) + b)
    ensures Leftover(a + b) == Leftover(Leftover(a) + b)
    decreases |a|
  {
    if |a| >= SIZE {
      assert (a + b)[..SIZE] == a[..SIZE] && (a + b)[SIZE..] == a[SIZE..] + b;
      DecodeConcat(a[SIZE..], b);
    }
  }

  lemma {:induction false} StreamRoundTrip(ms: seq<Message>)
    requires forall m | m in ms :: ValidMessage(m)
    ensures DecodeAll(EncodeAll(ms)) == ms && Leftover(EncodeAll(ms)) == []
  {
    if ms != [] {
      var b := EncodeAll(ms);
      RoundTrip(ms[0]);
      assert b[..SIZE] == Encode(ms[0]) && b[SIZE..] == EncodeAll(ms[1..]);
      StreamRoundTrip(ms[1..]);
    }
  }

  function Flatten(chunks: seq<Bytes>): Bytes {
    if chunks == [] then [] else Flatten(chunks[..|chunks| - 1]) + chunks[|chunks| - 1]
  }

  /** What a receiver has decoded after some chunks, and what it keeps. */
  function Received(chunks: seq<Bytes>): (r: (seq<Message>, Bytes)) {
    if chunks == [] then ([], [])
    else
      var (ms, rest) := Received(chunks[..|chunks| - 1]);
      var b := rest + chunks[|chunks| - 1];
      (ms + DecodeAll(b), Leftover(b))
  }

  lemma {:induction false} ChunksDoNotMatter(chunks: seq<Bytes>)
    ensures Received(chunks) == (DecodeAll(Flatten(chunks)), Leftover(Flatten(chunks)))
  {
    if chunks != [] {
      ChunksDoNotMatter(chunks[..|chunks| - 1]);
      DecodeConcat(Flatten(chunks[..|chunks| - 1]), chunks[|chunks| - 1]);
    }
  }

  /** However the stream of the messages ms is cut, the receiver decodes exactly ms, in order. */
  lemma AnyChunking(ms: seq<Message>, chunks: seq<Bytes>)
    requires (forall m | m in ms :: ValidMessage(m)) && Flatten(chunks) == EncodeAll(ms)
    ensures Received(chunks) == (ms, [])
  {
    ChunksDoNotMatter(chunks);
    StreamRoundTrip(ms);
  }

  /** While the stream is still coming in, the receiver has decoded a beginning of ms, and keeps less than one
      message: no message is early, late, torn or repeated. */
  lemma PartialStream(ms: seq<Message>, chunks: seq<Bytes>)
    requires (forall m | m in ms :: ValidMessage(m)) && Flatten(chunks) <= EncodeAll(ms)
    ensures Received(chunks).0 <= ms && |Received(chunks).1| < SIZE
    ensures |Received(chunks).0| == |Flatten(chunks)| / SIZE
  {
    ChunksDoNotMatter(chunks);
    StreamRoundTrip(ms);
    DecodedPrefix(Flatten(chunks), EncodeAll(ms));
    DecodedCount(Flatten(chunks));
  }

  lemma DecodedPrefix(got: Bytes, all: Bytes)
    requires got <= all
    ensures DecodeAll(got) <= DecodeAll(all)
  {
    assert got + all[|got|..] == all;
    DecodeConcat(got, all[|got|..]);
  }

  lemma {:induction false} DecodedCount(b: Bytes)
    ensures |DecodeAll(b)| == |b| / SIZE
    decreases |b|
  {
    if |b| >= SIZE {
      DecodedCount(b[SIZE..]);
    }
  }

  // ---------------------------------------------------------------- what the automaton does with messages

  /** Elections and tokens give their identifier to the LCR automaton; others are ignored. */
  function ToLcr(ms: seq<Message>): seq<Bytes> {
    if ms == [] then []
    else (if ms[0].kind == Token || ms[0].kind == Elect then [ms[0].id] else []) + ToLcr(ms[1..])
  }

  /** Tokens of others travel on. */
  function ToRing(ms: seq<Message>, u: Bytes): seq<Message> {
    if ms == [] then [] else (if ms[0].kind == Token && ms[0].id != u then [ms[0]] else []) + ToRing(ms[1..], u)
  }

  lemma {:induction false} ToLcrPush(ms: seq<Message>, m: Message)
    ensures ToLcr(ms + [m]) == ToLcr(ms) + ToLcr([m])
  {
    if ms == [] {
      assert ms + [m] == [m];
    } else {
      assert (ms + [m])[1..] == ms[1..] + [m];
      ToLcrPush(ms[1..], m);
    }
  }

  lemma {:induction false} ToRingPush(ms: seq<Message>, m: Message, u: Bytes)
    ensures ToRing(ms + [m], u) == ToRing(ms, u) + ToRing([m], u)
  {
    if ms == [] {
      assert ms + [m] == [m];
    } else {
      assert (ms + [m])[1..] == ms[1..] + [m];
      ToRingPush(ms[1..], m, u);
    }
  }

  lemma {:induction false} ToLcrConcat(ms: seq<Message>, ns: seq<Message>)
    ensures ToLcr(ms + ns) == ToLcr(ms) + ToLcr(ns)
  {
    if ms == [] {
      assert ms + ns == ns;
    } else {
      assert (ms + ns)[1..] == ms[1..] + ns;
      ToLcrConcat(ms[1..], ns);
    }
  }

  lemma {:induction false} ToRingConcat(ms: seq<Message>, ns: seq<Message>, u: Bytes)
    ensures ToRing(ms + ns, u) == ToRing(ms, u) + ToRing(ns, u)
  {
    if ms == [] {
      assert ms + ns == ns;
    } else {
      assert (ms + ns)[1..] == ms[1..] + ns;
      ToRingConcat(ms[1..], ns, u);
    }
  }

  /** The state of the automaton as far as the ring concerns it. */
  datatype Node = Node(recv: Bytes, toLcr: seq<Bytes>, toRing: seq<Message>, lastToken: int)

  /** A chunk arrives; the clock shows clock(k) when its k-th message is taken. */
  function Arrived(p: Node, u: Bytes, chunk: Bytes, clock: nat -> int): Node {
    var ms := DecodeAll(p.recv + chunk);
    Node(Leftover(p.recv + chunk), p.toLcr + ToLcr(ms), p.toRing + ToRing(ms, u), LastToken(ms, p.lastToken, clock))
  }

  /** Chunks arrive one after the other, each with its own readings of the clock. */
  function AllArrived(p: Node, u: Bytes, chunks: seq<Bytes>, clocks: nat -> (nat -> int)): Node {
    if chunks == [] then p
    else
      var n := |chunks| - 1;
      Arrived(AllArrived(p, u, chunks[..n], clocks), u, chunks[n], clocks(n))
  }

  class TcpLcrAutomaton {
    const u: Bytes
    var toLcr: seq<Bytes>
    var toRing: seq<Message>
    var recv: Bytes
    var lastToken: int

    constructor (u: Bytes)
      ensures this.u == u && toLcr == [] && toRing == [] && recv == []
    {
      this.u := u;
      toLcr, toRing, recv, lastToken := [], [], [], 0;
    }

    ghost function State(): Node
      reads this
    {
      Node(recv, toLcr, toRing, lastToken)
    }

    method ReceiveRingEffect(val: Bytes, clock: nat -> int)
      modifies this
      ensures State() == Arrived(old(State()), u, val, clock)
    {
      recv := recv + val;
      var offset: nat, k: nat := 0, 0;
      ghost var all, done: seq<Message> := recv, [];
      while |recv| - offset >= SIZE
        invariant recv == all && Taken(all, offset, done) && k == |done|
        invariant toLcr == old(toLcr) + ToLcr(done) && toRing == old(toRing) + ToRing(done, u)
        invariant lastToken == LastToken(done, old(lastToken), clock)
        decreases |recv| - offset
      {
        var m := Decode(recv[offset..offset + SIZE]);
        NextMessage(all, offset, done, m);
        NextQueues(done, m, u);
        TakeMessage(m, clock(k));
        offset, k, done := offset + SIZE, k + 1, done + [m];
      }
      AllTaken(all, offset, done);
      recv := recv[offset..];
    }

    /** The switch over the type of a message; the case of a token falls through to that of an election. */
    method TakeMessage(m: Message, now: int)
      modifies `toLcr, `toRing, `lastToken
      ensures toLcr == old(toLcr) + if m.kind == Token || m.kind == Elect then [m.id] else []
      ensures toRing == old(toRing) + if m.kind == Token && m.id != u then [m] else []
      ensures lastToken == if m.kind == Token then now else old(lastToken)
    {
      match m.kind
      case Unknown =>
      case Token =>
        lastToken := now;
        if m.id != u {
          toRing := toRing + [m];
        }
        toLcr := toLcr + [m.id];
      case Elect =>
        toLcr := toLcr + [m.id];
      case Other(_) =>
    }

    method SendRingEffect() returns (val: Bytes)
      requires toRing != [] && ValidMessage(toRing[0])
      modifies this
      ensures val == Encode(old(toRing)[0]) && toRing == old(toRing)[1..]
      ensures toLcr == old(toLcr) && recv == old(recv) && lastToken == old(lastToken)
    {
      val := Encode(toRing[0]);
      toRing := toRing[1..];
    }
  }

  /** When the automaton last heard of a token. */
  function LastToken(ms: seq<Message>, before: int, clock: nat -> int): int {
    if ms == [] then before
    else if ms[|ms| - 1].kind == Token then clock(|ms| - 1)
    else LastToken(ms[..|ms| - 1], before, clock)
  }

  // ---------------------------------------------------------------- chunks and the automaton

  /** Whatever the chunks are, the automaton has queued what the messages received so far ask for. */
  lemma {:induction false} QueuesAfterChunks(p: Node, u: Bytes, chunks: seq<Bytes>, clocks: nat -> (nat -> int))
    requires p.recv == []
    ensures var q, (ms, rest) := AllArrived(p, u, chunks, clocks), Received(chunks);
            q.recv == rest && q.toLcr == p.toLcr + ToLcr(ms) && q.toRing == p.toRing + ToRing(ms, u)
  {
    if chunks != [] {
      var n := |chunks| - 1;
      var (ms, rest) := Received(chunks[..n]);
      QueuesAfterChunks(p, u, chunks[..n], clocks);
      QueuesAfterChunk(p, AllArrived(p, u, chunks[..n], clocks), u, ms, DecodeAll(rest + chunks[n]), chunks[n], clocks(n));
    }
  }

  lemma QueuesAfterChunk(p: Node, q: Node, u: Bytes, ms: seq<Message>, ns: seq<Message>, chunk: Bytes, clock: nat -> int)
    requires q.toLcr == p.toLcr + ToLcr(ms) && q.toRing == p.toRing + ToRing(ms, u) && ns == DecodeAll(q.recv + chunk)
    ensures var q' := Arrived(q, u, chunk, clock);
            q'.toLcr == p.toLcr + ToLcr(ms + ns) && q'.toRing == p.toRing + ToRing(ms + ns, u)
  {
    ToLcrConcat(ms, ns);
    ToRingConcat(ms, ns, u);
    Regroup(p.toLcr, ToLcr(ms), ToLcr(ns));
    Regroup(p.toRing, ToRing(ms, u), ToRing(ns, u));
  }

  lemma Regroup<T>(a: seq<T>, b: seq<T>, c: seq<T>)
    ensures a + b + c == a + (b + c)
  {}

  /** However the stream of the messages ms is cut, and whenever the chunks come, in the end the automaton has kept
      nothing back: it has queued every identifier of an election or a token for the LCR automaton and every
      token of another for the ring, each once and in order. */
  lemma StreamHandled(ms: seq<Message>, p: Node, u: Bytes, chunks: seq<Bytes>, clocks: nat -> (nat -> int))
    requires (forall m | m in ms :: ValidMessage(m)) && Flatten(chunks) == EncodeAll(ms) && p.recv == []
    ensures var q := AllArrived(p, u, chunks, clocks);
            q.recv == [] && q.toLcr == p.toLcr + ToLcr(ms) && q.toRing == p.toRing + ToRing(ms, u)
  {
    AnyChunking(ms, chunks);
    QueuesAfterChunks(p, u, chunks, clocks);
  }

  /** The time of the last token is what the clock showed at the last of the tokens, the k-th message; with none
      (k is 0) it stays. */
  lemma {:induction false} LastTokenOf(ms: seq<Message>, before: int, clock: nat -> int) returns (k: nat)
    ensures k <= |ms| && forall l | k <= l < |ms| :: ms[l].kind != Token
    ensures LastToken(ms, before, clock) == if k == 0 then before else clock(k - 1)
    ensures k > 0 ==> ms[k - 1].kind == Token
  {
    k := |ms|;
    if ms != [] && ms[|ms| - 1].kind != Token {
      k := LastTokenOf(ms[..|ms| - 1], before, clock);
    }
  }

  /** The messages done have been taken off the front of the stream, up to the offset. */
  ghost predicate Taken(all: Bytes, offset: nat, done: seq<Message>) {
    offset <= |all| && done + DecodeAll(all[offset..]) == DecodeAll(all) && Leftover(all[offset..]) == Leftover(all)
  }

  lemma NextMessage(all: Bytes, offset: nat, done: seq<Message>, m: Message)
    requires Taken(all, offset, done) && offset + SIZE <= |all| && m == Decode(all[offset..offset + SIZE])
    ensures Taken(all, offset + SIZE, done + [m])
  {
    var rest := all[offset..];
    assert rest[..SIZE] == all[offset..offset + SIZE] && rest[SIZE..] == all[offset + SIZE..];
    assert DecodeAll(rest) == [m] + DecodeAll(rest[SIZE..]);
    assert done + ([m] + DecodeAll(rest[SIZE..])) == done + [m] + DecodeAll(rest[SIZE..]);
  }

  lemma AllTaken(all: Bytes, offset: nat, done: seq<Message>)
    requires Taken(all, offset, done) && |all| - offset < SIZE
    ensures done == DecodeAll(all) && all[offset..] == Leftover(all)
  {
    assert done + [] == done;
  }

  lemma NextQueues(done: seq<Message>, m: Message, u: Bytes)
    ensures ToLcr(done + [m]) == ToLcr(done) + if m.kind == Token || m.kind == Elect then [m.id] else []
    ensures ToRing(done + [m], u) == ToRing(done, u) + if m.kind == Token && m.id != u then [m] else []
  {
    ToLcrPush(done, m);
    ToRingPush(done, m, u);
    OneQueued(m, u);
  }

  lemma OneQueued(m: Message, u: Bytes)
    ensures ToLcr([m]) == if m.kind == Token || m.kind == Elect then [m.id] else []
    ensures ToRing([m], u) == if m.kind == Token && m.id != u then [m] else []
  {
    assert [m][1..] == [];
  }
}
