/** What the COBS decoder makes of any bytes between two zeros, encoded by anyone or garbage. */
module CobsInput {
  import opened Wrappers
  import opened Cobs

  /**
   * The text of a chain of blocks: the code n of a block counts itself and n - 1 bytes of text,
   * and each block but one of code 255 stands for a zero behind its bytes. None is a chain that
   * breaks off inside a block.
   */
  function Parse(body: seq<byte>): Option<seq<byte>>
    decreases |body|
  {
    if body == [] then Some([])
    else
      var n := body[0] as int;
      if n == 0 || |body| < n then None
      else
        var rest := Parse(body[n..]);
        if rest.None? then None
        else Some(body[1..n] + (if n == 255 then [] else [0]) + rest.value)
  }

  /** Fewer bytes than a block still wants. */
  lemma {:induction false} FeedShort(s: State, run: seq<byte>)
    requires |run| < s.block as int && 0 !in run && |s.text| + |run| < 2048
    ensures Feed(s, run).block != 0 && Feed(s, run).packets == s.packets
    decreases |run|
  {
    if run != [] {
      assert run[0] in run && forall b :: b in run[1..] ==> b in run;
      FeedShort(Step(s, run[0]), run[1..]);
    }
  }

  lemma NoZeroInside(body: seq<byte>, n: nat)
    requires 0 !in body && n <= |body|
    ensures 0 !in body[n..] && (0 < n ==> 0 !in body[1..n])
  {
  }

  /** A whole block at the start of the bytes. */
  lemma FeedFirst(s: State, body: seq<byte>, n: nat)
    requires s.block == 0 && body != [] && 0 !in body && n == body[0] as int && n <= |body|
    requires |Decoded(s)| + |body| < 2048
    ensures n > 0
    ensures Feed(s, body[..n]) == State(body[0], 0, Decoded(s) + body[1..n], s.packets)
  {
    assert body[0] in body;
    NoZeroInside(body, n);
    var first := body[..n];
    assert first[0] == body[0] && first[1..] == body[1..n];
    FeedRun(Step(s, body[0]), body[1..n]);
  }

  lemma {:induction false} FeedParsed(s: State, body: seq<byte>)
    requires s.block == 0 && 0 !in body && |Decoded(s)| + |body| < 2048
    ensures var s' := Feed(s, body);
            && s'.packets == s.packets
            && (s'.block == 0 <==> Parse(body).Some?)
            && (Parse(body).Some? ==> Decoded(s') == Decoded(s) + Parse(body).value)
    decreases |body|
  {
    if body == [] {
      assert Decoded(s) + [] == Decoded(s);
    } else {
      assert body[0] in body;
      var n := body[0] as int;
      if |body| < n {
        assert 0 !in body[1..] by {
          NoZeroInside(body, 1);
        }
        FeedShort(Step(s, body[0]), body[1..]);
      } else {
        var s1 := Feed(s, body[..n]);
        FeedFirst(s, body, n);
        NoZeroInside(body, n);
        FeedConcat(s, body[..n], body[n..]);
        assert body[..n] + body[n..] == body;
        assert Decoded(s1) == Decoded(s) + (body[1..n] + (if n == 255 then [] else [0]));
        FeedParsed(s1, body[n..]);
        if Parse(body[n..]).Some? {
          Regroup(Decoded(s), body[1..n] + (if n == 255 then [] else [0]), Parse(body[n..]).value);
        }
      }
    }
  }

  lemma Regroup<T>(a: seq<T>, b: seq<T>, c: seq<T>)
    ensures (a + b) + c == a + (b + c)
  {
  }

  /**
   * Between two zeros, any bytes that cannot overflow the buffer: nothing is handed on if they
   * break off inside a block, or if there are none; else exactly one packet, the text of the
   * blocks without its last byte, which in a framed packet is the phantom zero.
   */
  lemma AnyInput(s: State, body: seq<byte>)
    requires Clean(s) && 0 !in body && |body| < 2048
    ensures var s' := Feed(s, body + [0]);
            var text := Parse(body);
            && Clean(s')
            && (body == [] || text.None? ==> s'.packets == s.packets)
            && (text.Some? ==> (text.value == [] <==> body == []))
            && (body != [] && text.Some? ==> s'.packets == s.packets + [text.value[..|text.value| - 1]])
  {
    FeedConcat(s, body, [0]);
    var s1 := Feed(s, body);
    FeedParsed(s, body);
    assert Decoded(s) == [];
    assert Feed(s1, [0]) == Step(s1, 0);
    assert body != [] && Parse(body).Some? ==> |Parse(body).value| > 0 by {
      ParsedText(body);
    }
    if Parse(body).Some? {
      assert Decoded(s1) == Parse(body).value;
    }
  }

  lemma ParsedText(body: seq<byte>)
    ensures body != [] && Parse(body).Some? ==> |Parse(body).value| > 0
  {
    if body != [] && Parse(body).Some? {
      var n := body[0] as int;
      assert n == 255 ==> |body[1..n]| == 254;
    }
  }

  /** With 2047 bytes of text one more, other than zero, starts over as the code of a block. */
  lemma OverflowStartsOver(s: State, b: byte)
    requires |s.text| == 2047 && b != 0
    ensures Step(s, b) == State(b, b - 1, [], s.packets)
  {
  }
}
