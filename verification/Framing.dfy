/** Length-prefixed frames of the outbound tunnel: the writer, and the reader that undoes it. */
module Framing {
  import opened Common

  type byte = b: int | 0 <= b < 256

  const MAX_FRAME_BYTES := 8 * 1024 * 1024
  const UINT32_LIMIT := 0x1_0000_0000

  /** A serialized frame body. A body of 4 GiB or more has no 32-bit length and cannot be written. */
  type Payload = p: seq<byte> | |p| < UINT32_LIMIT

  function Header(n: int): (h: seq<byte>)
    requires 0 <= n < UINT32_LIMIT
    ensures |h| == 4
  {
    [n / 0x100_0000, n / 0x1_0000 % 0x100, n / 0x100 % 0x100, n % 0x100]
  }

  /** The number that bytes stand for, most significant byte first. */
  function BigEndian(s: seq<byte>): nat {
    if s == [] then 0 else BigEndian(s[..|s| - 1]) * 0x100 + s[|s| - 1]
  }

  lemma FourBytes(a: int, b: int, c: int, d: int)
    requires 0 <= a < 0x100 && 0 <= b < 0x100 && 0 <= c < 0x100 && 0 <= d < 0x100
    ensures var n := ((a * 0x100 + b) * 0x100 + c) * 0x100 + d;
      && 0 <= n < UINT32_LIMIT
      && n % 0x100 == d
      && n / 0x100 == (a * 0x100 + b) * 0x100 + c && n / 0x100 % 0x100 == c
      && n / 0x1_0000 == a * 0x100 + b && n / 0x1_0000 % 0x100 == b
      && n / 0x100_0000 == a
  {
  }

  lemma BigEndianOfFour(s: seq<byte>)
    requires |s| == 4
    ensures BigEndian(s) < UINT32_LIMIT && Header(BigEndian(s)) == s
  {
    assert s[..1][..0] == s[..0] && s[..2][..1] == s[..1] && s[..3][..2] == s[..2];
    assert BigEndian(s[..1]) == s[0];
    assert BigEndian(s[..2]) == BigEndian(s[..1]) * 0x100 + s[1];
    assert BigEndian(s[..3]) == BigEndian(s[..2]) * 0x100 + s[2];
    FourBytes(s[0], s[1], s[2], s[3]);
  }

  lemma BigEndianOfHeader(n: int)
    requires 0 <= n < UINT32_LIMIT
    ensures BigEndian(Header(n)) == n
  {
    var h := Header(n);
    assert h[..1][..0] == h[..0] && h[..2][..1] == h[..1] && h[..3][..2] == h[..2];
    assert BigEndian(h[..1]) == n / 0x100_0000;
    assert BigEndian(h[..2]) == n / 0x1_0000;
    assert BigEndian(h[..3]) == n / 0x100;
  }

  /** The length at the front of a buffer. */
  function Size(s: seq<byte>): nat
    requires |s| >= 4
  {
    BigEndian(s[..4])
  }

  function Encode(p: Payload): seq<byte> { Header(|p|) + p }

  function EncodeAll(ps: seq<Payload>): seq<byte> {
    if ps == [] then [] else Encode(ps[0]) + EncodeAll(ps[1..])
  }

  lemma SizeOfEncoded(p: Payload, rest: seq<byte>)
    ensures Size(Encode(p) + rest) == |p|
    ensures (Encode(p) + rest)[4..4 + |p|] == p && (Encode(p) + rest)[4 + |p|..] == rest
  {
    var h := Header(|p|);
    BigEndianOfHeader(|p|);
    assert (Encode(p) + rest)[..4] == h;
  }

  /** On the wire: the length in four bytes, the most significant one first, and then the body. */
  lemma WireFormat(p: Payload)
    ensures var e := Encode(p);
      && |e| == 4 + |p| && e[4..] == p
      && |p| == 16777216 * (e[0] as int) + 65536 * (e[1] as int) + 256 * (e[2] as int) + e[3] as int
  {
    var n := |p|;
    assert n == n / 0x100 * 0x100 + n % 0x100;
    assert n / 0x100 == n / 0x1_0000 * 0x100 + n / 0x100 % 0x100;
    assert n / 0x1_0000 == n / 0x100_0000 * 0x100 + n / 0x1_0000 % 0x100;
  }

  /** What a reader holds: bodies handed on, bytes kept, and whether it cut the channel. */
  datatype Reader = Reader(frames: seq<Payload>, rest: seq<byte>, cut: bool)

  const FRESH_READER := Reader([], [], false)

  /** Reading one buffer from the front until no whole frame is left or a length is refused. */
  function Parse(s: seq<byte>): (r: Reader)
    decreases |s|
  {
    if |s| < 4 then Reader([], s, false)
    else
      var size := Size(s);
      if size > MAX_FRAME_BYTES then Reader([], s, true)
      else if |s| < 4 + size then Reader([], s, false)
      else
        var r := Parse(s[4 + size..]);
        r.(frames := [s[4..4 + size]] + r.frames)
  }

  /** One `data` event. */
  function OnChunk(r: Reader, chunk: seq<byte>): Reader {
    var p := Parse(r.rest + chunk);
    Reader(r.frames + p.frames, p.rest, r.cut || p.cut)
  }

  function OnChunks(r: Reader, chunks: seq<seq<byte>>): Reader
    decreases |chunks|
  {
    if chunks == [] then r else OnChunks(OnChunk(r, chunks[0]), chunks[1..])
  }

  ghost predicate WithinLimit(ps: seq<Payload>) { forall p <- ps :: |p| <= MAX_FRAME_BYTES }

  ghost predicate Oversize(s: seq<byte>) { |s| >= 4 && Size(s) > MAX_FRAME_BYTES }

  ghost predicate StartsWithWholeFrame(s: seq<byte>) {
    |s| >= 4 && Size(s) <= MAX_FRAME_BYTES && |s| >= 4 + Size(s)
  }

  lemma ParseStep(s: seq<byte>)
    ensures !StartsWithWholeFrame(s) ==> Parse(s) == Reader([], s, Oversize(s))
    ensures StartsWithWholeFrame(s) ==>
              var r := Parse(s[4 + Size(s)..]);
              Parse(s) == Reader([s[4..4 + Size(s)]] + r.frames, r.rest, r.cut)
  {
    hide BigEndian;
  }

  /** One frame is handed on at once, or cuts the channel if its body is longer than eight megabytes. */
  lemma LimitIsExact(p: Payload)
    ensures OnChunk(FRESH_READER, Encode(p)) ==
              if |p| <= 8388608 then Reader([p], [], false) else Reader([], Encode(p), true)
  {
    SizeOfEncoded(p, []);
    assert [] + Encode(p) == Encode(p) && Encode(p) + [] == Encode(p);
    ParseStep(Encode(p));
    assert Encode(p)[4..4 + |p|] == p && Encode(p)[4 + |p|..] == [];
    assert Parse([]) == Reader([], [], false);
    hide Parse, Size, Encode;
  }

  /** Bodies already handed on, and what reading these bytes adds. */
  function After(done: seq<Payload>, s: seq<byte>): Reader {
    var r := Parse(s);
    r.(frames := done + r.frames)
  }

  /** Handing on the first whole frame does not change what reading comes to; without one nothing more is handed on. */
  lemma AfterFrame(done: seq<Payload>, s: seq<byte>)
    ensures !StartsWithWholeFrame(s) ==> After(done, s) == Reader(done, s, Oversize(s))
    ensures StartsWithWholeFrame(s) ==>
              After(done, s) == After(done + [s[4..4 + Size(s)]], s[4 + Size(s)..])
  {
    hide BigEndian, Parse;
    ParseStep(s);
    if StartsWithWholeFrame(s) {
      var body, frames := s[4..4 + Size(s)], Parse(s[4 + Size(s)..]).frames;
      assert done + ([body] + frames) == done + [body] + frames;
    }
  }

  lemma OnChunkIsAfter(r: Reader, chunk: seq<byte>)
    ensures var a := After(r.frames, r.rest + chunk);
      OnChunk(r, chunk) == a.(cut := r.cut || a.cut)
  {}

  /** Reading in two pieces gives what reading the whole gives. */
  lemma {:induction false} ParseAppend(a: seq<byte>, b: seq<byte>)
    ensures OnChunk(Parse(a), b) == Parse(a + b)
    decreases |a|
  {
    hide Parse, BigEndian;
    ParseStep(a);
    if |a| >= 4 { assert (a + b)[..4] == a[..4]; }
    if StartsWithWholeFrame(a) {
      var size := Size(a);
      var tail := a[4 + size..];
      assert (a + b)[4 + size..] == tail + b && (a + b)[4..4 + size] == a[4..4 + size];
      ParseAppend(tail, b);
      ParseStep(a + b);
      var r := Parse(tail);
      var p := Parse(r.rest + b);
      assert [a[4..4 + size]] + r.frames + p.frames == [a[4..4 + size]] + (r.frames + p.frames);
    } else if Oversize(a) {
      ParseStep(a + b);
    }
  }

  lemma {:induction false} ChunksFrom(s: seq<byte>, chunks: seq<seq<byte>>)
    ensures OnChunks(Parse(s), chunks) == Parse(s + Flatten(chunks))
    decreases |chunks|
  {
    hide Parse;
    if chunks == [] {
      assert s + [] == s;
    } else {
      ParseAppend(s, chunks[0]);
      ChunksFrom(s + chunks[0], chunks[1..]);
      assert s + chunks[0] + Flatten(chunks[1..]) == s + Flatten(chunks);
    }
  }

  /** Frames delivered, bytes kept and the cut depend only on the bytes, not on how they were split. */
  lemma ChunkingIsInvisible(chunks: seq<seq<byte>>)
    ensures OnChunks(FRESH_READER, chunks) == Parse(Flatten(chunks))
  {
    ChunksFrom([], chunks);
    assert [] + Flatten(chunks) == Flatten(chunks);
  }

  /** `s` is these whole frames and then bytes that hold no further whole frame. */
  ghost predicate Split(s: seq<byte>, ps: seq<Payload>, rest: seq<byte>) {
    s == EncodeAll(ps) + rest && WithinLimit(ps) && !StartsWithWholeFrame(rest)
  }

  lemma FirstFrame(s: seq<byte>, ps: seq<Payload>, rest: seq<byte>)
    requires ps != [] && s == EncodeAll(ps) + rest && |ps[0]| <= MAX_FRAME_BYTES
    ensures StartsWithWholeFrame(s) && s[4..4 + Size(s)] == ps[0]
    ensures s[4 + Size(s)..] == EncodeAll(ps[1..]) + rest
  {
    var tail := EncodeAll(ps[1..]) + rest;
    assert s == Encode(ps[0]) + tail;
    hide EncodeAll, Encode, Header, BigEndian;
    SizeOfEncoded(ps[0], tail);
  }

  lemma EncodeFirst(p: Payload, ps: seq<Payload>, rest: seq<byte>)
    ensures EncodeAll([p] + ps) + rest == Encode(p) + (EncodeAll(ps) + rest)
  {
    hide Encode;
    var all: seq<Payload> := [p] + ps;
    assert all[0] == p && all[1..] == ps;
    assert Encode(p) + EncodeAll(ps) + rest == Encode(p) + (EncodeAll(ps) + rest);
  }

  /** What is read splits the bytes. */
  lemma {:induction false} ReadingSplits(s: seq<byte>)
    ensures Split(s, Parse(s).frames, Parse(s).rest) && (Parse(s).cut <==> Oversize(Parse(s).rest))
    decreases |s|
  {
    hide BigEndian, Encode, Header, Parse, EncodeAll;
    ParseStep(s);
    if StartsWithWholeFrame(s) {
      var p, tail := s[4..4 + Size(s)], s[4 + Size(s)..];
      var r := Parse(tail);
      ReadingSplits(tail);
      WholeFrame(s);
      EncodeFirst(p, r.frames, r.rest);
    } else {
      EncodeNone(s);
    }
  }

  lemma WholeFrame(s: seq<byte>)
    requires StartsWithWholeFrame(s)
    ensures s == Encode(s[4..4 + Size(s)]) + s[4 + Size(s)..]
  {
    hide BigEndian, Header;
    BigEndianOfFour(s[..4]);
  }

  lemma EncodeNone(rest: seq<byte>)
    ensures EncodeAll([]) + rest == rest
  {}

  /** There is no other way to split them. */
  lemma {:induction false} SplitIsRead(s: seq<byte>, ps: seq<Payload>, rest: seq<byte>)
    requires Split(s, ps, rest)
    ensures Parse(s).frames == ps && Parse(s).rest == rest
    decreases |ps|
  {
    hide BigEndian, Encode, Header, Parse, EncodeAll;
    ParseStep(s);
    if ps == [] {
      EncodeNone(rest);
    } else {
      FirstFrame(s, ps, rest);
      assert ps == [ps[0]] + ps[1..];
      SplitIsRead(s[4 + Size(s)..], ps[1..], rest);
    }
  }

  /** There is exactly one maximal whole-frame prefix, and it is what the reader delivers. */
  lemma DeliversMaximalPrefix(s: seq<byte>, ps: seq<Payload>, rest: seq<byte>)
    ensures Split(s, ps, rest) <==> Parse(s).frames == ps && Parse(s).rest == rest
    ensures Parse(s).cut <==> Oversize(Parse(s).rest)
  {
    hide Parse, Split;
    ReadingSplits(s);
    if Split(s, ps, rest) { SplitIsRead(s, ps, rest); }
  }

  /** How many leading bodies fit the limit. */
  function FittingPrefix(ps: seq<Payload>): (n: nat)
    ensures n <= |ps| && WithinLimit(ps[..n])
    ensures n < |ps| ==> |ps[n]| > MAX_FRAME_BYTES
  {
    if ps == [] || |ps[0]| > MAX_FRAME_BYTES then 0 else 1 + FittingPrefix(ps[1..])
  }

  lemma {:induction false} EncodeAllAppend(a: seq<Payload>, b: seq<Payload>)
    ensures EncodeAll(a + b) == EncodeAll(a) + EncodeAll(b)
  {
    hide Encode;
    if a == [] {
      assert a + b == b;
    } else {
      EncodeAllAppend(a[1..], b);
      assert (a + b)[0] == a[0] && (a + b)[1..] == a[1..] + b;
      var head := Encode(a[0]);
      assert head + (EncodeAll(a[1..]) + EncodeAll(b)) == head + EncodeAll(a[1..]) + EncodeAll(b);
    }
  }

  /**
   * The reader undoes the writer under any chunking. Bodies are delivered in
   * order up to the first one over the limit, where the channel is cut; so all
   * of them arrive, with nothing left over, exactly when all are within it.
   */
  lemma RoundTrip(ps: seq<Payload>, chunks: seq<seq<byte>>)
    requires Flatten(chunks) == EncodeAll(ps)
    ensures OnChunks(FRESH_READER, chunks).frames == ps[..FittingPrefix(ps)]
    ensures OnChunks(FRESH_READER, chunks) == Reader(ps, [], false) <==> WithinLimit(ps)
    ensures OnChunks(FRESH_READER, chunks).cut <==> !WithinLimit(ps)
  {
    ChunkingIsInvisible(chunks);
    var n := FittingPrefix(ps);
    var rest := EncodeAll(ps[n..]);
    assert ps == ps[..n] + ps[n..];
    EncodeAllAppend(ps[..n], ps[n..]);
    if n < |ps| {
      SizeOfEncoded(ps[n], EncodeAll(ps[n + 1..]));
      assert ps[n..][1..] == ps[n + 1..];
      assert Oversize(rest);
      assert ps[n] in ps;
    }
    DeliversMaximalPrefix(EncodeAll(ps), ps[..n], rest);
  }

  /** A socket as the writer sees it. */
  class Socket {
    var writable: bool
    var written: seq<byte>

    method WriteFrame(payload: Payload)
      modifies this`written
      ensures written == old(written) + if writable then Encode(payload) else []
    {
      if !writable { return; }
      var header := Header(|payload|);
      written := written + (header + payload);
    }
  }

  /** The reader attached to one socket. */
  class Framer {
    var buffer: seq<byte>
    var delivered: seq<Payload>
    var destroyed: bool

    ghost function State(): Reader reads this { Reader(delivered, buffer, destroyed) }

    constructor ()
      ensures State() == FRESH_READER
    {
      buffer, delivered, destroyed := [], [], false;
    }

    method OnData(chunk: seq<byte>)
      modifies this
      ensures State() == OnChunk(old(State()), chunk)
    {
      hide BigEndian, Parse, After;
      OnChunkIsAfter(State(), chunk);
      buffer := buffer + chunk;
      ghost var all := After(delivered, buffer);
      while |buffer| >= 4
        invariant destroyed == old(destroyed)
        invariant After(delivered, buffer) == all
        decreases |buffer|
      {
        AfterFrame(delivered, buffer);
        var size := Size(buffer);
        if size > MAX_FRAME_BYTES {
          destroyed := true;
          return;
        }
        if |buffer| < 4 + size { break; }
        var body := buffer[4..4 + size];
        buffer := buffer[4 + size..];
        delivered := delivered + [body];
      }
      AfterFrame(delivered, buffer);
    }
  }
}
