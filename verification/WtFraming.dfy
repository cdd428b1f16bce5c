/** Length-prefixed frames on a WebTransport stream, which arrives in chunks cut anywhere. */
module WtFraming {
  import opened Tlv

  function WireFrame(f: seq<Byte>): seq<Byte> { Le32(|f| % 0x1_0000_0000) + f }

  function Wire(fs: seq<seq<Byte>>): seq<Byte> {
    if |fs| == 0 then [] else Wire(fs[..|fs| - 1]) + WireFrame(fs[|fs| - 1])
  }

  /** The complete frames at the head of a byte string, and what is left over. */
  function FramesOf(s: seq<Byte>): seq<seq<Byte>>
    decreases |s|
  {
    if !Complete(s) then [] else [s[4..4 + FrameLength(s)]] + FramesOf(s[4 + FrameLength(s)..])
  }

  function LeftOf(s: seq<Byte>): seq<Byte>
    decreases |s|
  {
    if !Complete(s) then s else LeftOf(s[4 + FrameLength(s)..])
  }

  function FrameLength(s: seq<Byte>): nat
    requires |s| >= 4
  {
    FromLe32(s[0], s[1], s[2], s[3])
  }

  predicate Complete(s: seq<Byte>) { |s| >= 4 && |s| >= 4 + FrameLength(s) }

  // ---------- the page's reader ----------

  class FrameReader {
    var buf: seq<Byte>

    constructor ()
      ensures buf == []
    {
      buf := [];
    }

    /** One chunk; the frames it completes are delivered in order. */
    method OnChunk(chunk: seq<Byte>) returns (delivered: seq<seq<Byte>>)
      modifies this
      ensures delivered == FramesOf(old(buf) + chunk) && buf == LeftOf(old(buf) + chunk)
    {
      hide FrameLength;
      buf := buf + chunk;
      delivered := [];
      ghost var whole := buf;
      while |buf| >= 4
        invariant delivered + FramesOf(buf) == FramesOf(whole) && LeftOf(buf) == LeftOf(whole)
        decreases |buf|
      {
        var len := FrameLength(buf);
        if |buf| < 4 + len { break; }
        assert delivered + FramesOf(buf) == delivered + [buf[4..4 + len]] + FramesOf(buf[4 + len..]);
        delivered := delivered + [buf[4..4 + len]];
        buf := buf[4 + len..];
      }
      assert delivered + [] == delivered;
    }
  }

  // ---------- chunks do not matter ----------

  /** Reading on after a first part is reading both parts at once. */
  lemma {:induction false} ReadOn(a: seq<Byte>, b: seq<Byte>)
    ensures FramesOf(a + b) == FramesOf(a) + FramesOf(LeftOf(a) + b)
    ensures LeftOf(a + b) == LeftOf(LeftOf(a) + b)
    decreases |a|
  {
    hide FrameLength, Complete;
    if Complete(a) {
      CompleteStays(a, b);
      var n := 4 + FrameLength(a);
      assert (a + b)[4..n] == a[4..n];
      assert (a + b)[n..] == a[n..] + b;
      ReadOn(a[n..], b);
    } else {
      assert [] + FramesOf(a + b) == FramesOf(a + b);
    }
  }

  lemma CompleteStays(a: seq<Byte>, b: seq<Byte>)
    requires Complete(a)
    ensures |a| >= 4 + FrameLength(a) && Complete(a + b) && FrameLength(a + b) == FrameLength(a)
  {
    hide FrameLength;
    SameLength(a, b);
  }

  lemma SameLength(a: seq<Byte>, b: seq<Byte>)
    requires |a| >= 4
    ensures FrameLength(a + b) == FrameLength(a)
  {
  }

  function Concat(chunks: seq<seq<Byte>>): seq<Byte> {
    if |chunks| == 0 then [] else Concat(chunks[..|chunks| - 1]) + chunks[|chunks| - 1]
  }

  /** What the reader has delivered and what it keeps after a row of chunks. */
  function Delivered(chunks: seq<seq<Byte>>): seq<seq<Byte>> {
    if |chunks| == 0 then []
    else Delivered(chunks[..|chunks| - 1]) + FramesOf(KeptAfter(chunks[..|chunks| - 1]) + chunks[|chunks| - 1])
  }

  function KeptAfter(chunks: seq<seq<Byte>>): seq<Byte> {
    if |chunks| == 0 then [] else LeftOf(KeptAfter(chunks[..|chunks| - 1]) + chunks[|chunks| - 1])
  }

  /** However the stream is cut, the frames delivered are the complete frames of the whole stream,
      and the buffer is what follows them. */
  lemma {:induction false} ChunksDoNotMatter(chunks: seq<seq<Byte>>)
    ensures Delivered(chunks) == FramesOf(Concat(chunks)) && KeptAfter(chunks) == LeftOf(Concat(chunks))
    decreases |chunks|
  {
    hide FramesOf, LeftOf;
    if |chunks| == 0 {
      NothingYet();
    } else {
      ChunksDoNotMatter(chunks[..|chunks| - 1]);
      ReadOn(Concat(chunks[..|chunks| - 1]), chunks[|chunks| - 1]);
    }
  }

  lemma NothingYet()
    ensures FramesOf([]) == [] && LeftOf([]) == []
  {
  }

  method ReadAll(chunks: seq<seq<Byte>>) returns (delivered: seq<seq<Byte>>, kept: seq<Byte>)
    ensures delivered == FramesOf(Concat(chunks)) && kept == LeftOf(Concat(chunks))
  {
    hide FramesOf, LeftOf;
    var reader := new FrameReader();
    delivered := [];
    for i := 0 to |chunks|
      invariant delivered == Delivered(chunks[..i]) && reader.buf == KeptAfter(chunks[..i])
    {
      assert chunks[..i + 1][..i] == chunks[..i];
      var more := reader.OnChunk(chunks[i]);
      delivered := delivered + more;
    }
    assert chunks[..|chunks|] == chunks;
    ChunksDoNotMatter(chunks);
    kept := reader.buf;
  }

  // ---------- the round trip ----------

  predicate FramesFit(fs: seq<seq<Byte>>) { forall i :: 0 <= i < |fs| ==> |fs[i]| < 0x1_0000_0000 }

  lemma WireLength(f: seq<Byte>, rest: seq<Byte>)
    ensures FrameLength(WireFrame(f) + rest) == |f| % 0x1_0000_0000
    ensures |WireFrame(f)| == 4 + |f| && WireFrame(f)[4..] == f
  {
    var n: U32 := |f| % 0x1_0000_0000;
    var s := WireFrame(f) + rest;
    assert s[0] == Le32(n)[0] && s[1] == Le32(n)[1] && s[2] == Le32(n)[2] && s[3] == Le32(n)[3];
    Bytes32(n);
  }

  /** One frame at the head of a stream: read as itself when its length fits, and otherwise not. */
  lemma FirstFrame(f: seq<Byte>, rest: seq<Byte>)
    ensures var s := WireFrame(f) + rest;
            && (|f| < 0x1_0000_0000 ==> FramesOf(s) == [f] + FramesOf(rest) && LeftOf(s) == LeftOf(rest))
            && (|f| >= 0x1_0000_0000 ==> |FramesOf(s)| > 0 && FramesOf(s)[0] != f)
  {
    hide FrameLength, WireFrame;
    WireLength(f, rest);
    var s := WireFrame(f) + rest;
    if |f| < 0x1_0000_0000 {
      assert s[4..4 + |f|] == WireFrame(f)[4..];
      assert s[4 + |f|..] == rest;
    } else {
      assert |FramesOf(s)[0]| < |f|;
    }
  }

  lemma {:induction false} WireHead(fs: seq<seq<Byte>>)
    requires |fs| > 0
    ensures Wire(fs) == WireFrame(fs[0]) + Wire(fs[1..])
    decreases |fs|
  {
    hide WireFrame;
    if |fs| > 1 {
      WireHead(fs[..|fs| - 1]);
      assert fs[..|fs| - 1][1..] == fs[1..][..|fs| - 2];
    }
  }

  /** The frames written are the frames read, with nothing left over, if and only if every length
      fits its prefix. */
  lemma {:induction false} WireRoundTrip(fs: seq<seq<Byte>>)
    ensures FramesOf(Wire(fs)) == fs && LeftOf(Wire(fs)) == [] <==> FramesFit(fs)
    decreases |fs|
  {
    hide WireFrame, FramesOf, LeftOf, FramesFit;
    if |fs| == 0 {
      NothingYet();
      NothingFits();
    } else {
      WireHead(fs);
      FirstFrame(fs[0], Wire(fs[1..]));
      WireRoundTrip(fs[1..]);
      FramesFitTail(fs);
      assert fs == [fs[0]] + fs[1..];
      SameTail(fs[0], FramesOf(Wire(fs[1..])), fs[1..]);
    }
  }

  lemma NothingFits()
    ensures FramesFit([])
  {
  }

  lemma FramesFitTail(fs: seq<seq<Byte>>)
    requires |fs| > 0
    ensures FramesFit(fs) <==> |fs[0]| < 0x1_0000_0000 && FramesFit(fs[1..])
  {
    if |fs[0]| < 0x1_0000_0000 && FramesFit(fs[1..]) {
      forall i | 0 <= i < |fs| ensures |fs[i]| < 0x1_0000_0000 { if i > 0 { assert fs[i] == fs[1..][i - 1]; } }
    }
  }

  lemma SameTail(f: seq<Byte>, a: seq<seq<Byte>>, b: seq<seq<Byte>>)
    ensures [f] + a == [f] + b <==> a == b
  {
    if [f] + a == [f] + b { assert ([f] + a)[1..] == a && ([f] + b)[1..] == b; }
  }

  /** A stream that broke off delivers a prefix of the frames. */
  lemma CutStream(fs: seq<seq<Byte>>, part: seq<Byte>)
    requires FramesFit(fs) && part <= Wire(fs)
    ensures FramesOf(part) <= fs
  {
    hide FramesOf, LeftOf, Wire, FramesFit;
    WireRoundTrip(fs);
    ReadOn(part, Wire(fs)[|part|..]);
    assert part + Wire(fs)[|part|..] == Wire(fs);
  }

  // ---------- the daemon's writer ----------

  class SendStream {
    var sent: seq<Byte>

    /** Takes all the bytes, or breaks after some of them. */
    method WriteAll(bytes: seq<Byte>) returns (ok: bool)
      modifies this
      ensures ok ==> sent == old(sent) + bytes
      ensures !ok ==> old(sent) <= sent <= old(sent) + bytes
    {
      ok := *;
      if ok {
        sent := sent + bytes;
      } else {
        var n: nat :| n <= |bytes|;
        sent := sent + bytes[..n];
      }
    }
  }

  /** Drains the queue until it ends or a write breaks; then the stream is cut inside the frames. */
  method WriterTask(send: SendStream, frames: seq<seq<Byte>>) returns (ok: bool)
    modifies send
    ensures ok ==> send.sent == old(send.sent) + Wire(frames)
    ensures old(send.sent) <= send.sent <= old(send.sent) + Wire(frames)
  {
    hide Wire, Le32;
    ghost var before := send.sent;
    NothingWired();
    assert before + [] == before;
    for i := 0 to |frames|
      invariant send.sent == before + Wire(frames[..i])
    {
      WirePrefix(frames, i);
      ghost var wired, header := Wire(frames[..i]), Le32(|frames[i]| % 0x1_0000_0000);
      assert before + wired + header + frames[i] == before + (wired + (header + frames[i]));
      assert before + wired + (header + frames[i]) <= before + Wire(frames);
      ok := send.WriteAll(Le32(|frames[i]| % 0x1_0000_0000));
      if !ok { return; }
      ok := send.WriteAll(frames[i]);
      if !ok { return; }
    }
    assert frames[..|frames|] == frames;
    ok := true;
  }

  lemma NothingWired()
    ensures Wire([]) == []
  {
  }

  lemma WirePrefix(fs: seq<seq<Byte>>, i: nat)
    requires i < |fs|
    ensures Wire(fs[..i + 1]) == Wire(fs[..i]) + (Le32(|fs[i]| % 0x1_0000_0000) + fs[i])
    ensures Wire(fs[..i]) + (Le32(|fs[i]| % 0x1_0000_0000) + fs[i]) <= Wire(fs)
  {
    assert fs[..i + 1][..i] == fs[..i];
    WireGrows(fs, i + 1);
  }

  lemma {:induction false} WireGrows(fs: seq<seq<Byte>>, i: nat)
    requires i <= |fs|
    ensures Wire(fs[..i]) <= Wire(fs)
    decreases |fs|
  {
    hide WireFrame;
    if i < |fs| {
      WireGrows(fs[..|fs| - 1], i);
      assert fs[..|fs| - 1][..i] == fs[..i];
    } else {
      assert fs[..i] == fs;
    }
  }
}
