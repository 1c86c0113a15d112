/**
 * The COBS decoder of `Serial`, a machine that takes one byte at a time, against the encoder of
 * Cheshire and Baker: a packet is framed with a phantom zero behind it, so that one whose last
 * block is full still ends in the code 0x01.
 */
module Cobs {

  newtype byte = x: int | 0 <= x < 256

  const MSG_SIZE := 2048
  const FULL_RUN := 254

  // ---- The decoder on values ----

  /** `text` is `msg` up to `decode`; `packets` are the calls of `handlePacket`. */
  datatype State = State(code: byte, block: byte, text: seq<byte>, packets: seq<seq<byte>>)

  function Reset(s: State): State {
    State(0xff, 0, [], s.packets)
  }

  /** What is decoded so far, with the zero that the last block stands for. */
  function Decoded(s: State): seq<byte> {
    if s.code != 0xff then s.text + [0] else s.text
  }

  function Committed(s: State): State {
    var text := Decoded(s);
    Reset(if text == [] then s else s.(packets := s.packets + [text[..|text| - 1]]))
  }

  /** `cobsDecodeByte`. */
  function Step(s: State, b: byte): State {
    var s0 := if |s.text| == MSG_SIZE - 1 && b != 0 then Reset(s) else s;
    if s0.block != 0 then
      if b == 0 then Reset(s0) else s0.(text := s0.text + [b], block := s0.block - 1)
    else if b == 0 then Committed(s0)
    else s0.(code := b, block := b - 1, text := Decoded(s0))
  }

  function Feed(s: State, bytes: seq<byte>): State
    decreases |bytes|
  {
    if bytes == [] then s else Feed(Step(s, bytes[0]), bytes[1..])
  }

  predicate Clean(s: State) {
    s.code == 0xff && s.block == 0 && s.text == []
  }

  lemma {:induction false} FeedConcat(s: State, a: seq<byte>, b: seq<byte>)
    ensures Feed(s, a + b) == Feed(Feed(s, a), b)
    decreases |a|
  {
    if a == [] {
      assert a + b == b;
    } else {
      assert (a + b)[1..] == a[1..] + b;
      FeedConcat(Step(s, a[0]), a[1..], b);
    }
  }

  // ---- The object ----

  class Serial {
    const msg: array<byte>
    var code: byte
    var block: byte
    var decode: nat
    ghost var packets: seq<seq<byte>>

    ghost predicate Valid()
      reads this
    {
      msg.Length == MSG_SIZE && decode < MSG_SIZE
    }

    ghost function View(): State
      reads this, msg
      requires Valid()
    {
      State(code, block, msg[..decode], packets)
    }

    constructor ()
      ensures Valid() && fresh(msg) && Clean(View()) && packets == []
    {
      msg := new byte[MSG_SIZE];
      code, block, decode, packets := 0xff, 0, 0, [];
    }

    method CobsDecodeReset()
      requires msg.Length == MSG_SIZE
      modifies `code, `block, `decode
      ensures Valid() && code == 0xff && block == 0 && decode == 0
    {
      code, block, decode := 0xff, 0, 0;
    }

    /** `handlePacket`, which does nothing yet; the packet is recorded. */
    method HandlePacket(len: nat)
      requires len <= msg.Length
      modifies `packets
      ensures packets == old(packets) + [msg[..len]]
    {
      packets := packets + [msg[..len]];
    }

    /** `*decode++ = b`. */
    method Store(b: byte)
      requires msg.Length == MSG_SIZE && decode < MSG_SIZE
      modifies msg, `decode
      ensures decode == old(decode) + 1 && msg[..decode] == old(msg[..decode]) + [b]
    {
      msg[decode] := b;
      decode := decode + 1;
    }

    /** The zero byte at the end of a packet. */
    method Commit()
      requires msg.Length == MSG_SIZE && decode <= MSG_SIZE
      modifies `packets, `code, `block, `decode
      ensures Valid() && Clean(View())
      ensures packets == if old(decode) == 0 then old(packets) else old(packets) + [old(msg[..decode - 1])]
    {
      if decode != 0 {
        HandlePacket(decode - 1);
      }
      CobsDecodeReset();
    }

    /** `cobsDecodeByte`; that no write leaves `msg` and `block` does not wrap is checked on the way. */
    method CobsDecodeByte(b: byte)
      requires Valid()
      modifies this, msg
      ensures Valid() && View() == Step(old(View()), b)
    {
      if decode == MSG_SIZE - 1 && b != 0 {
        CobsDecodeReset();
      }
      ghost var s0 := View();
      if block != 0 {
        if b == 0 {
          CobsDecodeReset();
          return;
        }
        Store(b);
      } else {
        if code != 0xff {
          Store(0);
        }
        assert msg[..decode] == Decoded(s0);
        block, code := b, b;
        if code == 0 {
          assert decode != 0 ==> msg[..decode - 1] == Decoded(s0)[..decode - 1];
          Commit();
          return;
        }
      }
      block := block - 1;
    }

    method CobsDecode(buf: array<byte>, len: nat)
      requires Valid() && buf != msg && len <= buf.Length
      modifies this, msg
      ensures Valid() && View() == Feed(old(View()), buf[..len])
    {
      var i := 0;
      assert buf[..0] == [];
      while i < len
        invariant 0 <= i <= len && Valid()
        invariant View() == Feed(old(View()), buf[..i])
      {
        FeedConcat(old(View()), buf[..i], [buf[i]]);
        assert buf[..i] + [buf[i]] == buf[..i + 1];
        CobsDecodeByte(buf[i]);
        i := i + 1;
      }
    }
  }

  // ---- The encoder ----

  /** The length of the run of non-zero bytes that starts `q`, at most a full one. */
  function RunLength(q: seq<byte>, max: nat): (n: nat)
    ensures n <= max && n <= |q|
    ensures forall i :: 0 <= i < n ==> q[i] != 0
    ensures n < max && n < |q| ==> q[n] == 0
  {
    if q == [] || max == 0 || q[0] == 0 then 0 else 1 + RunLength(q[1..], max - 1)
  }

  predicate EndsInZero(q: seq<byte>) {
    q != [] && q[|q| - 1] == 0
  }

  /** What is left after the first block: a full one stands for no zero. */
  function Rest(q: seq<byte>): (r: seq<byte>)
    requires EndsInZero(q)
    ensures |r| < |q| && (r != [] ==> EndsInZero(r))
    ensures RunLength(q, FULL_RUN) == FULL_RUN ==> r != []
  {
    var n := RunLength(q, FULL_RUN);
    if n == FULL_RUN then q[n..] else q[n + 1..]
  }

  function Block(q: seq<byte>): seq<byte>
    requires EndsInZero(q)
  {
    var n := RunLength(q, FULL_RUN);
    [(n + 1) as byte] + q[..n]
  }

  function Blocks(q: seq<byte>): seq<byte>
    requires q == [] || EndsInZero(q)
    decreases |q|
  {
    if q == [] then [] else Block(q) + Blocks(Rest(q))
  }

  function Encode(p: seq<byte>): seq<byte> {
    Blocks(p + [0])
  }

  /** Framing works: no zero inside an encoded packet. */
  lemma {:induction false} BlocksHaveNoZero(q: seq<byte>)
    requires q == [] || EndsInZero(q)
    ensures 0 !in Blocks(q)
    decreases |q|
  {
    if q != [] {
      BlocksHaveNoZero(Rest(q));
    }
  }

  // ---- Any input ----

  /** Packets were only added, and those fit into the buffer. */
  predicate AddsFitting(before: seq<seq<byte>>, after: seq<seq<byte>>) {
    before <= after && forall i :: |before| <= i < |after| ==> |after[i]| < MSG_SIZE
  }

  lemma StepFits(s: State, b: byte)
    requires |s.text| < MSG_SIZE
    ensures |Step(s, b).text| < MSG_SIZE && AddsFitting(s.packets, Step(s, b).packets)
  {
  }

  lemma AddsFittingTransitive(a: seq<seq<byte>>, b: seq<seq<byte>>, c: seq<seq<byte>>)
    requires AddsFitting(a, b) && AddsFitting(b, c)
    ensures AddsFitting(a, c)
  {
  }

  /** From a buffer that is not full every input leaves it so, and hands on packets that fit into it. */
  lemma {:induction false} FeedFits(s: State, bytes: seq<byte>)
    requires |s.text| < MSG_SIZE
    ensures |Feed(s, bytes).text| < MSG_SIZE && AddsFitting(s.packets, Feed(s, bytes).packets)
    decreases |bytes|
  {
    if bytes != [] {
      var s1 := Step(s, bytes[0]);
      StepFits(s, bytes[0]);
      FeedFits(s1, bytes[1..]);
      AddsFittingTransitive(s.packets, s1.packets, Feed(s1, bytes[1..]).packets);
    }
  }

  /** A zero byte ends whatever was going on. */
  lemma ZeroCleans(s: State, bytes: seq<byte>)
    requires bytes != [] && bytes[|bytes| - 1] == 0
    ensures Clean(Feed(s, bytes))
  {
    var n := |bytes| - 1;
    assert bytes == bytes[..n] + [0];
    FeedConcat(s, bytes[..n], [0]);
  }

  // ---- Encoded packets ----

  /** The data bytes of a block. */
  lemma {:induction false} FeedRun(s: State, run: seq<byte>)
    requires |run| == s.block as int && 0 !in run
    requires |s.text| + |run| < MSG_SIZE
    ensures Feed(s, run) == s.(text := s.text + run, block := 0)
    decreases |run|
  {
    if run == [] {
      assert s.text + run == s.text;
    } else {
      assert run[0] in run && forall b :: b in run[1..] ==> b in run;
      FeedRun(Step(s, run[0]), run[1..]);
      assert s.text + [run[0]] + run[1..] == s.text + run;
    }
  }

  lemma FeedBlockText(s: State, q: seq<byte>, n: nat)
    requires EndsInZero(q) && s.block == 0 && n == RunLength(q, FULL_RUN)
    requires |s.text| < MSG_SIZE - 1 && |Decoded(s)| + |q| <= MSG_SIZE
    ensures Feed(s, Block(q)) == State((n + 1) as byte, 0, Decoded(s) + q[..n], s.packets)
  {
    assert Block(q)[1..] == q[..n];
    FeedRun(Step(s, (n + 1) as byte), q[..n]);
  }

  /** One block adds what it encodes, the zero it stands for included. */
  lemma FeedBlock(s: State, q: seq<byte>)
    requires EndsInZero(q) && s.block == 0
    requires |s.text| < MSG_SIZE - 1 && |Decoded(s)| + |q| <= MSG_SIZE
    ensures var s' := Feed(s, Block(q));
            && s'.block == 0 && s'.packets == s.packets
            && Decoded(s') + Rest(q) == Decoded(s) + q
            && (s'.code == 0xff <==> RunLength(q, FULL_RUN) == FULL_RUN)
  {
    var n := RunLength(q, FULL_RUN);
    var d := Decoded(s);
    FeedBlockText(s, q, n);
    if n == FULL_RUN {
      assert d + q[..n] + q[n..] == d + q;
    } else {
      assert q[n] == 0;
      assert d + q[..n] + [0] + q[n + 1..] == d + q;
    }
  }

  /** The last block of `q` before the phantom zero is full. */
  predicate EndsFull(q: seq<byte>)
    requires EndsInZero(q)
    decreases |q|
  {
    var rest := Rest(q);
    rest != [] && ((RunLength(q, FULL_RUN) == FULL_RUN && rest == [0]) || EndsFull(rest))
  }

  /** Blocks that fit are decoded to what they encode. */
  lemma {:induction false} FeedBlocks(s: State, q: seq<byte>)
    requires EndsInZero(q) && s.block == 0
    requires |Decoded(s)| + |q| <= MSG_SIZE
    requires |Decoded(s)| + |q| == MSG_SIZE ==> !EndsFull(q) && (s.code == 0xff ==> q != [0])
    ensures var s' := Feed(s, Blocks(q));
            && s'.block == 0 && s'.packets == s.packets && s'.code != 0xff
            && Decoded(s') == Decoded(s) + q
    decreases |q|
  {
    assert |q| == 1 ==> q == [0];
    var rest := Rest(q);
    FeedBlock(s, q);
    FeedConcat(s, Block(q), Blocks(rest));
    var s1 := Feed(s, Block(q));
    if rest == [] {
      assert Decoded(s1) + rest == Decoded(s1);
    } else {
      assert |Decoded(s1)| + |rest| == |Decoded(s)| + |q|;
      FeedBlocks(s1, rest);
      assert Decoded(s1) + rest == Decoded(s) + q;
    }
  }

  /** A packet that takes the whole buffer and ends in a full block overflows at its last code. */
  lemma {:induction false} FullBlockOverflows(s: State, q: seq<byte>)
    requires EndsInZero(q) && s.block == 0
    requires |Decoded(s)| + |q| == MSG_SIZE && EndsFull(q)
    ensures Feed(s, Blocks(q)) == State(1, 0, [], s.packets)
    decreases |q|
  {
    var rest := Rest(q);
    FeedBlock(s, q);
    FeedConcat(s, Block(q), Blocks(rest));
    var s1 := Feed(s, Block(q));
    assert |Decoded(s1)| + |rest| == |Decoded(s)| + |q|;
    if rest == [0] && RunLength(q, FULL_RUN) == FULL_RUN {
      assert Blocks([0]) == [1];
      assert Feed(s1, [1]) == Step(s1, 1);
    } else {
      FullBlockOverflows(s1, rest);
    }
  }

  /** Packets the buffer can take: up to 2046 bytes, or 2047 unless the last block is full. */
  predicate Deliverable(p: seq<byte>) {
    |p| < MSG_SIZE - 1 || (|p| == MSG_SIZE - 1 && !EndsFull(p + [0]))
  }

  lemma DeliverableIsDelivered(s: State, p: seq<byte>)
    requires Clean(s) && Deliverable(p)
    ensures Feed(s, Encode(p) + [0]) == s.(packets := s.packets + [p])
  {
    FeedConcat(s, Encode(p), [0]);
    var s1 := Feed(s, Encode(p));
    assert Decoded(s) + (p + [0]) == p + [0];
    FeedBlocks(s, p + [0]);
    assert Feed(s1, [0]) == Step(s1, 0);
    assert Decoded(s1)[..|Decoded(s1)| - 1] == p;
  }

  /**
   * A decoder between packets delivers an encoded packet exactly if the buffer can take it; the
   * one packet of 2047 bytes that it cannot take comes out empty.
   */
  lemma DeliveredExactlyIf(s: State, p: seq<byte>)
    requires Clean(s)
    ensures Feed(s, Encode(p) + [0]).packets == s.packets + [p] <==> Deliverable(p)
    ensures Deliverable(p) <==> |p| <= 2046 || (|p| == 2047 && !EndsFull(p + [0]))
    ensures |p| == MSG_SIZE - 1 && EndsFull(p + [0]) ==> Feed(s, Encode(p) + [0]).packets == s.packets + [[]]
  {
    if Deliverable(p) {
      DeliverableIsDelivered(s, p);
    } else if |p| == MSG_SIZE - 1 {
      FeedConcat(s, Encode(p), [0]);
      FullBlockOverflows(s, p + [0]);
      var s1 := Feed(s, Encode(p));
      assert Feed(s1, [0]) == Step(s1, 0);
      assert Decoded(s1) == [0] && Decoded(s1)[..0] == [];
      assert (s.packets + [[]])[|s.packets|] == [] && (s.packets + [p])[|s.packets|] == p;
    } else {
      FeedFits(s, Encode(p) + [0]);
      assert (s.packets + [p])[|s.packets|] == p;
    }
  }

  // ---- Streams ----

  function Stream(packets: seq<seq<byte>>): seq<byte> {
    if packets == [] then [] else Encode(packets[0]) + [0] + Stream(packets[1..])
  }

  lemma AppendRest<T>(a: seq<T>, b: seq<T>)
    requires b != []
    ensures a + [b[0]] + b[1..] == a + b
  {
  }

  lemma {:induction false} StreamFromClean(s: State, packets: seq<seq<byte>>)
    requires Clean(s) && forall p :: p in packets ==> Deliverable(p)
    ensures Feed(s, Stream(packets)) == s.(packets := s.packets + packets)
    decreases |packets|
  {
    if packets == [] {
      assert s.packets + packets == s.packets;
    } else {
      var first := Encode(packets[0]) + [0];
      assert packets[0] in packets;
      DeliverableIsDelivered(s, packets[0]);
      FeedConcat(s, first, Stream(packets[1..]));
      StreamFromClean(s.(packets := s.packets + [packets[0]]), packets[1..]);
      AppendRest(s.packets, packets);
    }
  }

  /**
   * Resynchronisation: from every decoder state and after any bytes that end in zero, a stream of
   * packets is delivered as it was sent, and nothing is left over.
   */
  lemma StreamIsDelivered(s: State, noise: seq<byte>, packets: seq<seq<byte>>)
    requires noise != [] && noise[|noise| - 1] == 0
    requires forall p :: p in packets ==> Deliverable(p)
    ensures var s' := Feed(s, noise + Stream(packets));
            Clean(s') && s'.packets == Feed(s, noise).packets + packets
  {
    ZeroCleans(s, noise);
    FeedConcat(s, noise, Stream(packets));
    StreamFromClean(Feed(s, noise), packets);
  }

  function Flatten(chunks: seq<seq<byte>>): seq<byte> {
    if chunks == [] then [] else chunks[0] + Flatten(chunks[1..])
  }

  function FeedChunks(s: State, chunks: seq<seq<byte>>): State
    decreases |chunks|
  {
    if chunks == [] then s else FeedChunks(Feed(s, chunks[0]), chunks[1..])
  }

  /** The bytes may arrive in any pieces: calls of `cobsDecode` add up. */
  lemma {:induction false} ChunkingIsIrrelevant(s: State, chunks: seq<seq<byte>>)
    ensures FeedChunks(s, chunks) == Feed(s, Flatten(chunks))
    decreases |chunks|
  {
    if chunks != [] {
      FeedConcat(s, chunks[0], Flatten(chunks[1..]));
      ChunkingIsIrrelevant(Feed(s, chunks[0]), chunks[1..]);
    }
  }

  /** Different packets have different encodings, on the packets a buffer can take. */
  lemma EncodeIsInjective(p: seq<byte>, q: seq<byte>)
    requires Deliverable(p) && Deliverable(q) && Encode(p) == Encode(q)
    ensures p == q
  {
    var s := State(0xff, 0, [], []);
    DeliverableIsDelivered(s, p);
    DeliverableIsDelivered(s, q);
    assert ([] + [p])[0] == ([] + [q])[0];
  }
}
