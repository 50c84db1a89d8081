/** The command wire format as a grammar, and the byte-at-a-time acceptor proved to segment
    every byte stream exactly as the grammar does. */
module FrameGrammar {
  import opened Words

  const SOF_BYTE: byte := 0xA5
  const RX_MAX_PAYLOAD: nat := 32

  /** The acceptor's verdict after each byte: a whole frame, more to come, nothing begun, or a
      declared length that is refused. */
  datatype FrameResult = READY | IN_PROGRESS | PENDING | ERROR

  /** The three kinds of stretch a stream is made of. */
  datatype Token =
    | Noise(b: byte)
    | Oversize(opcode: byte, length: byte)
    | Frame(wire: seq<byte>)

  function LengthField(w: seq<byte>): nat
    requires |w| >= 3
  {
    w[2]
  }

  /** SOF, opcode, length, payload, two checksum bytes. */
  predicate IsFrame(w: seq<byte>) {
    |w| >= 5 && w[0] == SOF_BYTE && w[2] <= RX_MAX_PAYLOAD && |w| == 5 + LengthField(w)
  }

  predicate IsToken(t: Token) {
    match t
    case Noise(b) => b != SOF_BYTE
    case Oversize(_, length) => length > RX_MAX_PAYLOAD
    case Frame(w) => IsFrame(w)
  }

  function TokenBytes(t: Token): seq<byte> {
    match t
    case Noise(b) => [b]
    case Oversize(opcode, length) => [SOF_BYTE, opcode, length]
    case Frame(w) => w
  }

  function Flatten(ts: seq<Token>): seq<byte> {
    if ts == [] then [] else Flatten(ts[..|ts| - 1]) + TokenBytes(ts[|ts| - 1])
  }

  /** A proper beginning of a frame, possibly empty. */
  predicate Partial(h: seq<byte>) {
    && (|h| >= 1 ==> h[0] == SOF_BYTE)
    && (|h| >= 3 ==> h[2] <= RX_MAX_PAYLOAD && |h| < 5 + LengthField(h))
  }

  /** A left-to-right division of `s` into whole tokens and an unfinished rest. */
  ghost predicate IsSegmentation(ts: seq<Token>, rest: seq<byte>, s: seq<byte>) {
    (forall i :: 0 <= i < |ts| ==> IsToken(ts[i])) && Partial(rest) && Flatten(ts) + rest == s
  }

  // ----- the acceptor

  /** One byte after the partial frame `held`: the verdict and the partial frame left. */
  function Accept(held: seq<byte>, b: byte): (r: (FrameResult, seq<byte>)) {
    var h := held + [b];
    if held == [] && b != SOF_BYTE then (PENDING, [])
    else if |h| == 3 && b > RX_MAX_PAYLOAD then (ERROR, [])
    else if |h| >= 3 && |h| == 5 + LengthField(h) then (READY, [])
    else (IN_PROGRESS, h)
  }

  function Emit(held: seq<byte>, b: byte): seq<Token> {
    match Accept(held, b).0
    case READY => [Frame(held + [b])]
    case PENDING => [Noise(b)]
    case ERROR => if |held| == 2 then [Oversize(held[1], b)] else []
    case IN_PROGRESS => []
  }

  /** The partial frame held after a stream. */
  function HeldAfter(held: seq<byte>, s: seq<byte>): seq<byte> {
    if s == [] then held else Accept(HeldAfter(held, s[..|s| - 1]), s[|s| - 1]).1
  }

  function TokensOf(held: seq<byte>, s: seq<byte>): seq<Token> {
    if s == [] then []
    else TokensOf(held, s[..|s| - 1]) + Emit(HeldAfter(held, s[..|s| - 1]), s[|s| - 1])
  }

  lemma AcceptKeepsPartial(held: seq<byte>, b: byte)
    requires Partial(held)
    ensures Partial(Accept(held, b).1)
    ensures forall i :: 0 <= i < |Emit(held, b)| ==> IsToken(Emit(held, b)[i])
    ensures Flatten(Emit(held, b)) + Accept(held, b).1 == held + [b]
  {
    var e := Emit(held, b);
    if e != [] {
      assert e[..0] == [];
      assert Flatten(e) == Flatten(e[..0]) + TokenBytes(e[0]) == TokenBytes(e[0]);
    }
  }

  lemma {:induction false} HeldIsPartial(held: seq<byte>, s: seq<byte>)
    requires Partial(held)
    ensures Partial(HeldAfter(held, s))
  {
    if s != [] {
      HeldIsPartial(held, s[..|s| - 1]);
      AcceptKeepsPartial(HeldAfter(held, s[..|s| - 1]), s[|s| - 1]);
    }
  }

  lemma {:induction false} HeldComposes(held: seq<byte>, s: seq<byte>, t: seq<byte>)
    ensures HeldAfter(held, s + t) == HeldAfter(HeldAfter(held, s), t)
  {
    if t == [] {
      assert s + t == s;
    } else {
      assert (s + t)[..|s + t| - 1] == s + t[..|t| - 1];
      HeldComposes(held, s, t[..|t| - 1]);
    }
  }

  lemma {:induction false} FlattenConcat(a: seq<Token>, b: seq<Token>)
    ensures Flatten(a + b) == Flatten(a) + Flatten(b)
  {
    if b == [] {
      assert a + b == a;
    } else {
      assert (a + b)[..|a + b| - 1] == a + b[..|b| - 1];
      FlattenConcat(a, b[..|b| - 1]);
    }
  }

  // ----- existence

  lemma ExtendSegmentation(ts: seq<Token>, held: seq<byte>, v: seq<byte>, e: seq<Token>, h: seq<byte>, b: byte)
    requires IsSegmentation(ts, held, v)
    requires (forall i :: 0 <= i < |e| ==> IsToken(e[i])) && Partial(h) && Flatten(e) + h == held + [b]
    ensures IsSegmentation(ts + e, h, v + [b])
  {
    FlattenConcat(ts, e);
    Regroup(Flatten(ts), Flatten(e), h);
    Regroup(Flatten(ts), held, [b]);
  }

  lemma Regroup(x: seq<byte>, y: seq<byte>, z: seq<byte>)
    ensures (x + y) + z == x + (y + z)
  {
  }

  lemma {:induction false} ParserSegments(s: seq<byte>)
    ensures IsSegmentation(TokensOf([], s), HeldAfter([], s), s)
  {
    if s == [] {
      EmptySegmentation();
    } else {
      var v, b := s[..|s| - 1], s[|s| - 1];
      assert s == v + [b];
      ParserSegments(v);
      SegmentOneMore(v, b);
    }
  }

  lemma EmptySegmentation()
    ensures IsSegmentation([], [], [])
  {
  }

  lemma SegmentOneMore(v: seq<byte>, b: byte)
    requires IsSegmentation(TokensOf([], v), HeldAfter([], v), v)
    ensures IsSegmentation(TokensOf([], v + [b]), HeldAfter([], v + [b]), v + [b])
  {
    var held := HeldAfter([], v);
    AcceptKeepsPartial(held, b);
    ExtendSegmentation(TokensOf([], v), held, v, Emit(held, b), Accept(held, b).1, b);
    assert (v + [b])[..|v|] == v;
  }

  // ----- uniqueness

  /** No two tokens, and no token and unfinished rest, begin the same stream. */
  lemma FirstTokenUnique(t: Token, u: Token, x: seq<byte>, y: seq<byte>)
    requires IsToken(t) && IsToken(u) && TokenBytes(t) + x == TokenBytes(u) + y
    ensures t == u && x == y
  {
    var s := TokenBytes(t) + x;
    assert s[0] == TokenBytes(t)[0] == TokenBytes(u)[0];
    if !t.Noise? {
      assert s[1] == TokenBytes(t)[1] == TokenBytes(u)[1];
      assert s[2] == TokenBytes(t)[2] == TokenBytes(u)[2];
    }
    assert |TokenBytes(t)| == |TokenBytes(u)|;
    assert TokenBytes(t) == s[..|TokenBytes(t)|] == TokenBytes(u);
    assert x == s[|TokenBytes(t)|..] == y;
  }

  lemma RestIsNotToken(rest: seq<byte>, t: Token, x: seq<byte>)
    requires Partial(rest) && IsToken(t)
    ensures rest != TokenBytes(t) + x
  {
  }

  lemma {:induction false} FlattenHead(ts: seq<Token>)
    requires ts != []
    ensures Flatten(ts) == TokenBytes(ts[0]) + Flatten(ts[1..])
  {
    assert ts == [ts[0]] + ts[1..];
    assert [ts[0]][..0] == [];
    FlattenConcat([ts[0]], ts[1..]);
    assert Flatten([ts[0]]) == Flatten([]) + TokenBytes(ts[0]) == TokenBytes(ts[0]);
  }

  lemma SegmentationTail(ts: seq<Token>, rest: seq<byte>, s: seq<byte>)
    requires IsSegmentation(ts, rest, s) && ts != []
    ensures IsSegmentation(ts[1..], rest, Flatten(ts[1..]) + rest)
    ensures IsToken(ts[0]) && s == TokenBytes(ts[0]) + (Flatten(ts[1..]) + rest)
  {
    FlattenHead(ts);
    forall i | 0 <= i < |ts[1..]| ensures IsToken(ts[1..][i]) { assert IsToken(ts[i + 1]); }
  }

  lemma {:induction false} SegmentationUnique(ts: seq<Token>, rest: seq<byte>, us: seq<Token>, rest': seq<byte>, s: seq<byte>)
    requires IsSegmentation(ts, rest, s) && IsSegmentation(us, rest', s)
    ensures ts == us && rest == rest'
    decreases |ts|
  {
    if ts == [] && us == [] {
      assert rest == s && rest' == s;
    } else if ts == [] {
      SegmentationTail(us, rest', s);
      RestIsNotToken(rest, us[0], Flatten(us[1..]) + rest');
      assert false;
    } else if us == [] {
      SegmentationTail(ts, rest, s);
      RestIsNotToken(rest', ts[0], Flatten(ts[1..]) + rest);
      assert false;
    } else {
      SegmentationTail(ts, rest, s);
      SegmentationTail(us, rest', s);
      FirstTokenUnique(ts[0], us[0], Flatten(ts[1..]) + rest, Flatten(us[1..]) + rest');
      SegmentationUnique(ts[1..], rest, us[1..], rest', Flatten(ts[1..]) + rest);
      assert ts == [ts[0]] + ts[1..] && us == [us[0]] + us[1..];
    }
  }

  /** The parser yields exactly the segmentation the grammar describes, on every stream. */
  lemma ParserEqualsGrammar(s: seq<byte>, ts: seq<Token>, rest: seq<byte>)
    ensures IsSegmentation(ts, rest, s) <==> ts == TokensOf([], s) && rest == HeldAfter([], s)
  {
    ParserSegments(s);
    if IsSegmentation(ts, rest, s) {
      SegmentationUnique(ts, rest, TokensOf([], s), HeldAfter([], s), s);
    }
  }

  // ----- conservation of bytes

  /** 5 + LEN of a frame. */
  function FrameSize(t: Token): nat {
    if t.Frame? && |t.wire| >= 3 then 5 + LengthField(t.wire) else 0
  }

  /** Total of 5 + LEN over the frames. */
  function FrameBytes(ts: seq<Token>): nat {
    if ts == [] then 0 else FrameBytes(ts[..|ts| - 1]) + FrameSize(ts[|ts| - 1])
  }

  function Errors(ts: seq<Token>): nat {
    if ts == [] then 0 else Errors(ts[..|ts| - 1]) + (if ts[|ts| - 1].Oversize? then 1 else 0)
  }

  function Pendings(ts: seq<Token>): nat {
    if ts == [] then 0 else Pendings(ts[..|ts| - 1]) + (if ts[|ts| - 1].Noise? then 1 else 0)
  }

  lemma {:induction false} FlattenSize(ts: seq<Token>)
    requires forall i :: 0 <= i < |ts| ==> IsToken(ts[i])
    ensures |Flatten(ts)| == FrameBytes(ts) + 3 * Errors(ts) + Pendings(ts)
  {
    if ts != [] { FlattenSize(ts[..|ts| - 1]); }
  }

  /** Every byte fed is in a frame, in a three-byte error, was skipped, or is still held. */
  lemma BytesConserved(s: seq<byte>)
    ensures var ts := TokensOf([], s);
      |s| == FrameBytes(ts) + 3 * Errors(ts) + Pendings(ts) + |HeldAfter([], s)|
  {
    ParserSegments(s);
    FlattenSize(TokensOf([], s));
  }

  // ----- one whole frame

  /** Every byte of a well-formed frame is taken, and only the last completes it. */
  lemma FrameStep(w: seq<byte>, k: nat)
    requires IsFrame(w) && k < |w|
    ensures Accept(w[..k], w[k]) == if k + 1 < |w| then (IN_PROGRESS, w[..k + 1]) else (READY, [])
  {
    var h := w[..k] + [w[k]];
    assert h == w[..k + 1];
    assert k >= 2 ==> h[2] == w[2];
  }

  lemma {:induction false} FramePrefix(w: seq<byte>, k: nat)
    requires IsFrame(w) && k < |w|
    ensures HeldAfter([], w[..k]) == w[..k]
  {
    if k > 0 {
      FramePrefix(w, k - 1);
      FrameStep(w, k - 1);
      assert w[..k][..k - 1] == w[..k - 1];
    }
  }

  // ----- self-stabilisation

  /** Most bytes until the parser is hunting for a start of frame again. */
  function Rank(h: seq<byte>): (r: nat)
    requires Partial(h)
    ensures r <= 36
    ensures r == 0 <==> h == []
  {
    if |h| == 0 then 0 else if |h| < 3 then 37 - |h| else 5 + LengthField(h) - |h|
  }

  lemma RankDecreases(h: seq<byte>, b: byte)
    requires Partial(h) && h != []
    ensures Partial(Accept(h, b).1) && Rank(Accept(h, b).1) < Rank(h)
  {
    AcceptKeepsPartial(h, b);
  }

  /** From any state, some prefix no longer than the rank leads back to hunting. */
  lemma {:induction false} ReturnsToHunting(h: seq<byte>, s: seq<byte>) returns (k: nat)
    requires Partial(h) && |s| >= Rank(h)
    ensures k <= Rank(h) && HeldAfter(h, s[..k]) == []
    decreases Rank(h)
  {
    if h == [] {
      k := 0;
    } else {
      RankDecreases(h, s[0]);
      var h' := Accept(h, s[0]).1;
      var j := ReturnsToHunting(h', s[1..]);
      k := j + 1;
      HeldComposes(h, [s[0]], s[1..][..j]);
      assert [s[0]] + s[1..][..j] == s[..k];
      assert [s[0]][..0] == [];
      assert HeldAfter(h, [s[0]]) == Accept(HeldAfter(h, []), s[0]).1 == h';
    }
  }

  lemma {:induction false} NoiseKeepsHunting(s: seq<byte>)
    requires SOF_BYTE !in s
    ensures HeldAfter([], s) == []
  {
    if s != [] { NoiseKeepsHunting(s[..|s| - 1]); }
  }

  /** A parser that is hunting accepts the next well-formed frame. */
  lemma AcceptsNextFrame(before: seq<byte>, w: seq<byte>)
    requires HeldAfter([], before) == [] && IsFrame(w)
    ensures TokensOf([], before + w) == TokensOf([], before) + [Frame(w)]
    ensures HeldAfter([], before + w) == []
  {
    var ts := TokensOf([], before);
    ParserSegments(before);
    FlattenConcat(ts, [Frame(w)]);
    assert [Frame(w)][..0] == [];
    assert Flatten([Frame(w)]) == Flatten([]) + w == w;
    assert Flatten(ts) + [] == Flatten(ts) == before;
    assert IsSegmentation(ts + [Frame(w)], [], before + w);
    ParserEqualsGrammar(before + w, ts + [Frame(w)], []);
  }

  /** From every reachable state, any 36 consecutive bytes pass through hunting; if none of
      them is a start byte the parser is hunting at the end, whatever came before, and the
      next well-formed frame is accepted. */
  lemma SelfStabilises(before: seq<byte>, s: seq<byte>, w: seq<byte>)
    requires |s| == 36
    ensures exists k :: 0 <= k <= 36 && HeldAfter([], before + s[..k]) == []
    ensures SOF_BYTE !in s ==> HeldAfter([], before + s) == []
    ensures SOF_BYTE !in s && IsFrame(w) ==>
      TokensOf([], before + s + w) == TokensOf([], before + s) + [Frame(w)]
  {
    HeldIsPartial([], before);
    var h := HeldAfter([], before);
    var k := ReturnsToHunting(h, s);
    HeldComposes([], before, s[..k]);
    HeldComposes([], before, s);
    HeldComposes(h, s[..k], s[k..]);
    assert s[..k] + s[k..] == s;
    if SOF_BYTE !in s {
      NoiseKeepsHunting(s[k..]);
      if IsFrame(w) { AcceptsNextFrame(before + s, w); }
    }
  }

  /** 36 is the least such number: a frame with the longest payload keeps the parser busy
      for 35 bytes after its start byte. */
  lemma ThirtyFiveDoNotSuffice(w: seq<byte>, k: nat)
    requires IsFrame(w) && LengthField(w) == RX_MAX_PAYLOAD && 1 <= k <= 36
    ensures HeldAfter([], w[..k]) != []
  {
    FramePrefix(w, k);
  }
}
