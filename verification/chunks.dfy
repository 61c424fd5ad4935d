/** Re-chunking: what a client job sends in chunked mode, and that another cache's decoder gets
    the item back from it. Section 4.1 of RFC 7230 defines the coding. */
module Chunks {
  import opened Text
  import opened HeaderParser
  import S = Sender
  import D = Decoder

  const LAST_CHUNK := "0\r\n\r\n"

  function Chunk(p: string): string { Hex(|p|) + CRLF + p + CRLF }

  function Encode(ps: seq<string>): string {
    if ps == [] then "" else Chunk(ps[0]) + Encode(ps[1..])
  }

  lemma Assoc(a: string, b: string, c: string)
    ensures (a + b) + c == a + (b + c)
  {
  }

  lemma {:induction false} EncodeAppend(ps: seq<string>, p: string)
    ensures Encode(ps + [p]) == Encode(ps) + Chunk(p)
    ensures Concat(ps + [p]) == Concat(ps) + p
    decreases |ps|
  {
    hide Chunk;
    if ps == [] {
      assert ps + [p] == [p] && [p][1..] == [];
    } else {
      assert (ps + [p])[1..] == ps[1..] + [p] && (ps + [p])[0] == ps[0];
      EncodeAppend(ps[1..], p);
      Assoc(Chunk(ps[0]), Encode(ps[1..]), Chunk(p));
      Assoc(ps[0], Concat(ps[1..]), p);
    }
  }

  // ---------------------------------------------------------------- the sender

  /** A size line announces the bytes from `start` on, and those up to `upto` have been sent. */
  function OpenChunk(body: string, start: nat, upto: nat, end: nat): string
    requires start <= upto <= |body| && start <= end
  {
    Hex(end - start) + CRLF + body[start..upto]
  }

  /** `head` went out first; `ps` are the chunks completed since. */
  ghost predicate Chunking(body: string, head: string, ps: seq<string>, j: S.Job) {
    var out := j.wire + j.sendbuf;
    && (forall p :: p in ps ==> p != "")
    && head != "" && j.allData == |j.wire|
    && Concat(ps) <= body && |Concat(ps)| <= j.sendPos <= |body|
    && match j.activity
       case SendingChunkHeader =>
         !j.ok && j.sendPos == |Concat(ps)| && out == head + Encode(ps)
       case SendingChunkData =>
         && !j.ok && j.sendPos <= j.chunkEnd <= |body| && |Concat(ps)| < j.chunkEnd
         && out == head + Encode(ps) + OpenChunk(body, |Concat(ps)|, j.sendPos, j.chunkEnd)
         && (j.sendPos > |Concat(ps)| ==> j.sendbuf == "")
       case Finished =>
         Concat(ps) == body && out == head + Encode(ps) + LAST_CHUNK && (j.ok ==> j.sendbuf == "")
       case DiscoAsap =>
         j.ok ==> j.sendbuf == "" && Concat(ps) == body && out == head + Encode(ps) + LAST_CHUNK
       case _ => false
  }

  lemma ChunkHeaderKeeps(req: S.Request, body: string, head: string, ps: seq<string>, j: S.Job, io: S.Io)
    requires Chunking(body, head, ps, j) && !req.headOnly && S.PossibleIo(req, body, j, io) && j.sendbuf == ""
    requires j.activity.SendingChunkHeader?
    ensures Chunking(body, head, ps, S.ChunkHeaderStep(req, body, j, io).0)
  {
    hide Hex, S.IntText, S.Quick;
    assert j.wire == head + Encode(ps) by { assert j.wire + "" == j.wire; }
    var j1 := S.ChunkHeaderStep(req, body, j, io).0;
    if j1.activity.Finished? {
      assert Concat(ps) == body[..|body|] == body;
      assert j1.wire + j1.sendbuf == head + Encode(ps) + LAST_CHUNK by { assert "" + LAST_CHUNK == LAST_CHUNK; }
    } else if j1.activity.SendingChunkData? {
      var start := |Concat(ps)|;
      assert body[start..start] == "";
      assert j1.sendbuf == OpenChunk(body, start, start, j1.chunkEnd);
    }
  }

  /** More bytes of the open chunk. */
  lemma ChunkGrows(body: string, head: string, ps: seq<string>, j: S.Job, n: nat)
    requires Chunking(body, head, ps, j) && j.sendbuf == "" && j.activity.SendingChunkData?
    requires j.sendPos + n <= j.chunkEnd
    ensures Chunking(body, head, ps, S.HandOut(j, body, n))
  {
    hide Hex, Encode, Concat;
    var start := |Concat(ps)|;
    var j1 := S.HandOut(j, body, n);
    assert j.wire + "" == j.wire && j1.wire + "" == j1.wire;
    assert body[start..j.sendPos] + body[j.sendPos..j.sendPos + n] == body[start..j.sendPos + n];
    assert j1.wire == head + Encode(ps) + OpenChunk(body, start, j1.sendPos, j.chunkEnd);
  }

  /** An open chunk whose bytes are all out is closed by a line end. */
  lemma ChunkCloses(body: string, head: string, ps: seq<string>, j: S.Job)
    requires Chunking(body, head, ps, j) && j.sendbuf == "" && j.activity.SendingChunkData?
    requires j.sendPos == j.chunkEnd
    ensures Chunking(body, head, ps + [body[|Concat(ps)|..j.chunkEnd]],
                     j.(sendbuf := CRLF, activity := S.SendingChunkHeader))
  {
    var start := |Concat(ps)|;
    var p := body[start..j.chunkEnd];
    EncodeAppend(ps, p);
    hide Encode, Concat, Hex;
    assert j.wire + "" == j.wire;
    assert Concat(ps + [p]) == body[..j.chunkEnd];
    var open := OpenChunk(body, start, j.chunkEnd, j.chunkEnd);
    assert Chunk(p) == open + CRLF;
    hide OpenChunk, Chunk;
    assert j.wire == head + Encode(ps) + open;
    Assoc(head + Encode(ps), open, CRLF);
    Assoc(head, Encode(ps), Chunk(p));
  }

  lemma ChunkDataKeeps(req: S.Request, body: string, head: string, ps: seq<string>, j: S.Job, io: S.Io)
      returns (qs: seq<string>)
    requires Chunking(body, head, ps, j) && j.sendbuf == "" && j.activity.SendingChunkData?
    ensures Chunking(body, head, qs, S.ChunkDataStep(req, body, j, io).0)
  {
    hide S.Quick, Encode, Concat, OpenChunk;
    qs := ps;
    if io.file.Sent? {
      var n := S.Least(io.file.n, j.chunkEnd - j.sendPos);
      ChunkGrows(body, head, ps, j, n);
      var j1 := S.HandOut(j, body, n);
      if j1.sendPos == j.chunkEnd {
        ChunkCloses(body, head, ps, j1);
        assert "" + CRLF == CRLF;
        qs := ps + [body[|Concat(ps)|..j.chunkEnd]];
      }
    }
  }

  lemma ChunkAct(req: S.Request, body: string, head: string, ps: seq<string>, j: S.Job, io: S.Io)
      returns (qs: seq<string>)
    requires Chunking(body, head, ps, j) && !req.headOnly && S.PossibleIo(req, body, j, io) && j.sendbuf == ""
    ensures Chunking(body, head, qs, S.Act(req, body, j, io).0)
  {
    qs := ps;
    hide S.ChunkDataStep, S.ChunkHeaderStep, S.DataStep, S.Cook, Encode, Concat;
    if j.activity.SendingChunkHeader? {
      ChunkHeaderKeeps(req, body, head, ps, j, io);
    } else if j.activity.SendingChunkData? {
      qs := ChunkDataKeeps(req, body, head, ps, j, io);
    }
  }

  lemma ChunkStep(req: S.Request, body: string, head: string, ps: seq<string>, j: S.Job, io: S.Io)
      returns (qs: seq<string>)
    requires Chunking(body, head, ps, j) && !req.headOnly && S.PossibleIo(req, body, j, io)
    ensures Chunking(body, head, qs, S.SendData(req, body, j, io).0)
  {
    hide S.Act, Encode, Concat, OpenChunk;
    qs := ps;
    if j.sendbuf == "" {
      qs := ChunkAct(req, body, head, ps, j, io);
    } else if io.net.Sent? {
      var n := S.Least(io.net.n, |j.sendbuf|);
      var j1 := S.Flush(j, n);
      assert j1.wire + j1.sendbuf == j.wire + j.sendbuf;
      if j1.sendbuf == "" { qs := ChunkAct(req, body, head, ps, j1, io); }
    }
  }

  /** Whatever the growth of the item, the partial sends and the partial file transfers: the
      bytes sent are the head and a well-formed sequence of non-empty chunks of the body, and
      at a clean end they are all of the body and the last-chunk line. */
  lemma {:induction false} ChunkRun(req: S.Request, body: string, head: string, ps: seq<string>, j: S.Job, ios: seq<S.Io>)
      returns (qs: seq<string>)
    requires Chunking(body, head, ps, j) && !req.headOnly && S.PossibleRun(req, body, j, ios)
    ensures Chunking(body, head, qs, S.RunAll(req, body, j, ios))
    decreases |ios|
  {
    hide S.SendData, Chunking;
    if ios == [] { return ps; }
    qs := ChunkStep(req, body, head, ps, j, ios[0]);
    qs := ChunkRun(req, body, head, qs, S.SendData(req, body, j, ios[0]).0, ios[1..]);
  }

  // ---------------------------------------------------------------- the decoder

  /** What a job has stored once `text` has been taken, if it may store at all. */
  function Kept(j: D.Job, text: string): string { if j.allow then j.stored + text else j.stored }

  lemma LeadDropped(lead: string, b: string)
    requires (lead == "" || lead == CRLF) && b != "" && b[0] != '\r' && b[0] != '\n'
    ensures D.DropNewlines(lead + b) == b
  {
    if lead == "" {
      assert lead + b == b;
    } else {
      assert (CRLF + b)[1..] == "\n" + b && ("\n" + b)[1..] == b;
      assert D.DropNewlines(CRLF + b) == D.DropNewlines("\n" + b) == D.DropNewlines(b);
    }
  }

  lemma SizeTurn(j: D.Job, buf: string, b: string, k: nat, len: nat)
    requires D.DropNewlines(buf) == b && StrStrCrlf(b) == Some(k) && k + 2 <= |b|
    requires ScanHex(b) == Some(len) && !Blank(b[..k])
    ensures D.ChunkHeadTurn(j, buf) ==
      D.Go(if len > 0 then j.(rest := len, phase := D.ProcessChunkData) else j.(phase := D.GetChunkTrailer), b[k + 2..], false)
  {
    hide ScanHex, StrStrCrlf, Blank, D.DropNewlines;
  }

  lemma HexNotBlank(n: nat)
    ensures !Blank(Hex(n))
  {
    assert IsHexDigit(Hex(n)[0]);
  }

  lemma LineCuts(h: string, w: string)
    ensures (h + CRLF + w)[..|h|] == h && (h + CRLF + w)[|h| + 2..] == w
  {
  }

  /** The decoder reads a size line as written, if the size fits the type it scans into. */
  lemma SizeLine(j: D.Job, lead: string, n: nat, w: string)
    requires j.phase.GetChunkHead? && (lead == "" || lead == CRLF) && n < 0x1_0000_0000
    ensures D.Step(j, lead + (Hex(n) + CRLF + w), false) ==
      D.Go(if n > 0 then j.(rest := n, phase := D.ProcessChunkData) else j.(phase := D.GetChunkTrailer), w, false)
  {
    hide D.ChunkHeadTurn, ScanHex, Hex, StrStrCrlf, Blank, D.DropNewlines;
    var h := Hex(n);
    var b := h + CRLF + w;
    HexNotBlank(n);
    HexRoundTrip(n, w);
    LineOfHex(n, w);
    assert IsHexDigit(h[0]) && b[0] == h[0];
    LeadDropped(lead, b);
    LineCuts(h, w);
    SizeTurn(j, lead + b, b, |h|, n);
  }

  lemma LineOfHex(n: nat, w: string)
    ensures StrStrCrlf(Hex(n) + CRLF + w) == Some(|Hex(n)|)
  {
    var h := Hex(n);
    assert forall i :: 0 <= i < |h| ==> h[i] != '\0' && h[i] != '\r' by {
      assert forall i :: 0 <= i < |h| ==> IsHexDigit(h[i]);
    }
    hide Hex, FindCrlf, FindChar;
    assert FindCrlf(h).None?;
    assert '\0' !in h + CRLF;
    CStrExtend(h + CRLF, w);
    CStrNone(h + CRLF);
    FindLineEnd(h, CStr(w));
  }

  lemma LastChunk(j: D.Job, lead: string, tail: string)
    requires j.phase.GetChunkHead? && (lead == "" || lead == CRLF)
    ensures D.Process(j, lead + (LAST_CHUNK + tail), false) ==
      D.Return(j.(phase := D.GetHeader), tail, {D.Done}, false)
  {
    assert LAST_CHUNK + tail == Hex(0) + CRLF + (CRLF + tail);
    SizeLine(j, lead, 0, CRLF + tail);
    var j1 := j.(phase := D.GetChunkTrailer);
    EmptyLine(j1, tail);
    FinishStep(j1.(phase := D.FinishJob), tail);
    hide D.Step, Hex;
    assert D.Process(j1, CRLF + tail, false) == D.Process(j1.(phase := D.FinishJob), tail, false);
  }

  lemma EmptyLine(j: D.Job, tail: string)
    requires j.phase.GetChunkTrailer?
    ensures D.Step(j, CRLF + tail, false) == D.Go(j.(phase := D.FinishJob), tail, false)
  {
    assert StrStrCrlf(CRLF + tail) == Some(0) by {
      CStrNone(CRLF);
      CStrExtend(CRLF, tail);
      FindLineEnd("", CStr(tail));
      assert "" + CRLF + CStr(tail) == CRLF + CStr(tail);
    }
    hide StrStrCrlf;
    assert (CRLF + tail)[2..] == tail;
  }

  lemma FinishStep(j: D.Job, tail: string)
    requires j.phase.FinishJob?
    ensures D.Step(j, tail, false) == D.Return(j.(phase := D.GetHeader), tail, {D.Done}, false)
  {
  }

  lemma OneChunk(j: D.Job, lead: string, p: string, w: string)
    requires j.phase.GetChunkHead? && (lead == "" || lead == CRLF) && 0 < |p| < 0x1_0000_0000
    ensures D.Process(j, lead + (Hex(|p|) + CRLF + (p + w)), false) ==
      D.Process(j.(rest := 0, stored := Kept(j, p)), w, false)
  {
    SizeLine(j, lead, |p|, p + w);
    var j1 := j.(rest := |p|, phase := D.ProcessChunkData);
    assert (p + w)[..|p|] == p && (p + w)[|p|..] == w;
    assert D.Step(j1, p + w, false) == D.Go(j.(rest := 0, stored := Kept(j, p)), w, false);
    hide D.Step, Hex;
  }

  lemma ChunkFirst(p: string, rest: string, tail: string)
    ensures Chunk(p) + rest + tail == Hex(|p|) + CRLF + (p + (CRLF + (rest + tail)))
  {
    hide Hex;
    var size := Hex(|p|) + CRLF;
    Assoc(Chunk(p), rest, tail);
    Assoc(size + p, CRLF, rest + tail);
    Assoc(size, p, CRLF + (rest + tail));
  }

  /** Decoding what was encoded gives the body back, consumes exactly the encoding, and is not
      sensitive to how it arrives. */
  lemma {:induction false} DecodeEncoded(j: D.Job, lead: string, ps: seq<string>, tail: string)
    requires j.phase.GetChunkHead? && (lead == "" || lead == CRLF)
    requires forall p :: p in ps ==> 0 < |p| < 0x1_0000_0000
    ensures D.Process(j, lead + (Encode(ps) + (LAST_CHUNK + tail)), false) ==
      D.Return(j.(phase := D.GetHeader, rest := if ps == [] then j.rest else 0, stored := Kept(j, Concat(ps))),
               tail, {D.Done}, false)
    decreases |ps|
  {
    hide D.Process, Hex, Chunk;
    if ps == [] {
      LastChunk(j, lead, tail);
      assert Encode(ps) + (LAST_CHUNK + tail) == LAST_CHUNK + tail;
      assert j.stored + "" == j.stored;
    } else {
      assert ps[0] in ps;
      var rest := Encode(ps[1..]) + (LAST_CHUNK + tail);
      ChunkFirst(ps[0], Encode(ps[1..]), LAST_CHUNK + tail);
      OneChunk(j, lead, ps[0], CRLF + rest);
      var j1 := j.(rest := 0, stored := Kept(j, ps[0]));
      DecodeEncoded(j1, CRLF, ps[1..], tail);
      Assoc(j.stored, ps[0], Concat(ps[1..]));
    }
  }
}
