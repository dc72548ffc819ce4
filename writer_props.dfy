/**
 * What writer.go does, stated over the state machine of module WriterSpec:
 * the header decision, the buffering and spill-over, flush, and whole
 * requests made of many writes.
 */
module WriterProps {
  import opened Base
  import opened Http
  import opened Encoders
  import opened WriterSpec

  /** Undecided length: bytes are being collected in the buffer. */
  predicate Buffering(s: State)
  {
    s.headerSent && !s.dontEncode && !s.shouldEncode && s.buff.Some?
  }

  /** Writes go to a working encoder. */
  predicate Encoding(s: State)
  {
    s.headerSent && s.shouldEncode && s.enc.Some? && !s.enc.value.failing
  }

  /** Writes go verbatim to the underlying writer. */
  predicate Passthrough(s: State)
  {
    s.headerSent && s.dontEncode && !s.shouldEncode
  }

  // ---- WriteHeader (writer.go:42-73) ----

  /** A content-encoding already set: record the status, forward it unchanged, start nothing. */
  lemma WriteHeaderPresetEncoding(c: Conf, s: State, status: int)
    requires Inv(c, s) && Get(s.out.header, ContentEncoding) != ""
    ensures WriteHeaderS(c, s, status) == s.(status := status, headerSent := true, out := Forward(s.out, status))
  {
  }

  /** A content-type outside the allow-list: give up encoding and forward the status. */
  lemma WriteHeaderRefusedType(c: Conf, s: State, status: int)
    requires Inv(c, s) && Get(s.out.header, ContentEncoding) == "" && TypeRefused(c, s.out.header)
    ensures WriteHeaderS(c, s, status)
         == s.(status := status, headerSent := true, dontEncode := true, out := Forward(s.out, status))
    ensures Passthrough(WriteHeaderS(c, s, status)) || s.shouldEncode
  {
  }

  /** A length above minSize: the encoder starts inside WriteHeader, before any body byte. */
  lemma WriteHeaderKnownLength(c: Conf, s: State, status: int)
    requires Inv(c, s) && c.factory.Builds?
    requires Get(s.out.header, ContentEncoding) == "" && !TypeRefused(c, s.out.header) && LengthAbove(c, s.out.header)
    ensures var r := WriteHeaderS(c, s, status);
      && r.headerSent && r.status == status && r.shouldEncode
      && r.enc == Some(EncoderState([], false, c.factory.writesFail))
      && r.out == Forward(s.out.(header := EncodedHeader(s.out.header, c.encoding)), status)
      && r.dontEncode == s.dontEncode && r.buff == s.buff && r.buffLen == s.buffLen
  {
  }

  /** Otherwise: a fresh buffer of exactly minSize bytes, and no status sent yet. */
  lemma WriteHeaderUnknownLength(c: Conf, s: State, status: int)
    requires Inv(c, s)
    requires Get(s.out.header, ContentEncoding) == "" && !TypeRefused(c, s.out.header) && !LengthAbove(c, s.out.header)
    ensures var r := WriteHeaderS(c, s, status);
      && r == s.(status := status, headerSent := true, buff := Some(Zeros(c.minSize)))
      && |r.buff.value| == c.minSize && r.out == s.out
  {
  }

  // ---- startEncoding (writer.go:75-91) ----

  /** Factory success: encoding on, no content-length, content-encoding added, held status sent once. */
  lemma StartEncodingSucceeds(c: Conf, s: State)
    requires Inv(c, s) && c.factory.Builds?
    ensures var (r, ok) := StartEncodingS(c, s);
      && ok && r.shouldEncode && r.enc == Some(EncoderState([], false, c.factory.writesFail))
      && ContentLength !in r.out.header
      && ContentEncoding in r.out.header
      && r.out.header[ContentEncoding]
         == (if ContentEncoding in s.out.header then s.out.header[ContentEncoding] else []) + [c.encoding]
      && r.out.statuses == s.out.statuses + [s.status]
      && r.out.body == s.out.body
      && r.dontEncode == s.dontEncode && r.buff == s.buff && r.buffLen == s.buffLen
  {
  }

  /** Factory failure: the buffered bytes are written verbatim, encoding is given up, false is returned.
      The buffer is not cleared and no status is sent. */
  lemma StartEncodingRefused(c: Conf, s: State)
    requires Inv(c, s) && c.factory.Refuses?
    ensures var (r, ok) := StartEncodingS(c, s);
      && !ok && r.dontEncode && r.enc == None
      && r.out.body == s.out.body + (if s.buff.Some? && s.buffLen > 0 then Buffered(c, s) else [])
      && r.out.header == s.out.header && r.out.statuses == s.out.statuses
      && r.buff == s.buff && r.buffLen == s.buffLen
  {
  }

  // ---- Write (writer.go:93-125) ----

  /** After giving up, chunks go straight through. */
  lemma PassthroughWrite(c: Conf, s: State, chunk: seq<byte>)
    requires Inv(c, s) && Passthrough(s)
    ensures WriteS(c, s, chunk) == (s.(out := Emit(s.out, chunk)), Ok(|chunk|))
  {
  }

  /** A chunk that fits is copied in at offset buffLen; nothing reaches the underlying writer. */
  lemma BufferedWriteFits(c: Conf, s: State, chunk: seq<byte>)
    requires Inv(c, s) && Buffering(s) && s.buffLen + |chunk| <= c.minSize
    ensures var (r, res) := WriteS(c, s, chunk);
      && res == Ok(|chunk|) && Buffering(r)
      && r.buffLen == s.buffLen + |chunk| && Buffered(c, r) == Buffered(c, s) + chunk
      && r.out == s.out && r.enc == s.enc && r.status == s.status
  {
  }

  /** A chunk that overflows: the encoder gets the buffered prefix, then the chunk; the buffer is dropped. */
  lemma OverflowSwitches(c: Conf, s: State, chunk: seq<byte>)
    requires Inv(c, s) && Buffering(s) && c.factory == Builds(false) && s.buffLen + |chunk| > c.minSize
    ensures var (r, res) := WriteS(c, s, chunk);
      && res == Ok(|chunk|) && Encoding(r)
      && r.enc == Some(EncoderState(Buffered(c, s) + chunk, false, false))
      && r.buff == None && r.buffLen == 0
      && r.out == Forward(s.out.(header := EncodedHeader(s.out.header, c.encoding)), s.status)
  {
    if s.buffLen == 0 {
      assert Buffered(c, s) == [];
    } else {
      assert [] + Buffered(c, s) + chunk == Buffered(c, s) + chunk;
    }
  }

  /** The first Write of a handler that never called WriteHeader sends the held status through WriteHeader. */
  lemma FirstWriteSendsHeader(c: Conf, s: State, chunks: seq<seq<byte>>)
    requires Inv(c, s) && !s.headerSent && chunks != []
    ensures WriteAll(c, s, chunks) == WriteAll(c, WriteHeaderS(c, s, s.status), chunks)
  {
    var h := WriteHeaderS(c, s, s.status);
    assert WriteS(c, s, chunks[0]) == WriteS(c, h, chunks[0]);
  }

  // ---- flush (writer.go:127-134) ----

  /** flush closes an open encoder and otherwise writes the remaining buffer verbatim. */
  lemma FlushFinishes(c: Conf, s: State)
    requires Inv(c, s)
    ensures var r := FlushS(c, s);
      && (s.enc.Some? ==> r.enc == Some(s.enc.value.(closed := true)))
      && (s.enc.None? ==> r.enc == None)
      && r.out.body == s.out.body + (if s.buff.Some? && s.buffLen > 0 then Buffered(c, s) else [])
      && r.out.header == s.out.header && r.out.statuses == s.out.statuses
  {
  }

  // ---- many writes ----

  /** Writes that fit keep accumulating in the buffer, in order. */
  lemma {:induction false} BufferingAbsorbs(c: Conf, s: State, chunks: seq<seq<byte>>)
    requires Inv(c, s) && Buffering(s) && s.buffLen + TotalLen(chunks) <= c.minSize
    ensures var t := WriteAll(c, s, chunks);
      && Buffering(t) && t.out == s.out && t.enc == s.enc && t.status == s.status
      && t.buffLen == s.buffLen + TotalLen(chunks)
      && Buffered(c, t) == Buffered(c, s) + Concat(chunks)
    decreases |chunks|
  {
    if chunks != [] {
      BufferedWriteFits(c, s, chunks[0]);
      var s1 := WriteS(c, s, chunks[0]).0;
      BufferingAbsorbs(c, s1, chunks[1..]);
      assert Buffered(c, s) + chunks[0] + Concat(chunks[1..]) == Buffered(c, s) + Concat(chunks);
    }
  }

  /** Once encoding, every chunk goes to the encoder, in order, and nothing else changes. */
  lemma {:induction false} EncodingAbsorbs(c: Conf, s: State, chunks: seq<seq<byte>>)
    requires Inv(c, s) && Encoding(s)
    ensures WriteAll(c, s, chunks)
         == s.(enc := Some(s.enc.value.(received := s.enc.value.received + Concat(chunks))))
    decreases |chunks|
  {
    if chunks != [] {
      var e := s.enc.value;
      var s1 := s.(enc := Some(e.(received := e.received + chunks[0])));
      assert WriteS(c, s, chunks[0]) == (s1, Ok(|chunks[0]|));
      EncodingAbsorbs(c, s1, chunks[1..]);
      assert WriteAll(c, s, chunks) == WriteAll(c, s1, chunks[1..]);
      assert Concat(chunks) == chunks[0] + Concat(chunks[1..]);
      assert e.received + chunks[0] + Concat(chunks[1..]) == e.received + Concat(chunks);
    } else {
      assert s.enc.value.received + Concat(chunks) == s.enc.value.received;
    }
  }

  /** Once passing through, every chunk reaches the underlying writer verbatim, in order. */
  lemma {:induction false} PassthroughAbsorbs(c: Conf, s: State, chunks: seq<seq<byte>>)
    requires Inv(c, s) && Passthrough(s)
    ensures WriteAll(c, s, chunks) == s.(out := Emit(s.out, Concat(chunks)))
    decreases |chunks|
  {
    if chunks != [] {
      PassthroughWrite(c, s, chunks[0]);
      var s1 := WriteS(c, s, chunks[0]).0;
      PassthroughAbsorbs(c, s1, chunks[1..]);
      assert s.out.body + chunks[0] + Concat(chunks[1..]) == s.out.body + Concat(chunks);
    }
  }

  /** The encoder state that a run of writes overflowing from `s` ends in. */
  predicate EndsEncodingAll(c: Conf, s: State, chunks: seq<seq<byte>>)
    requires Inv(c, s) && s.buff.Some?
  {
    var t := WriteAll(c, s, chunks);
    && Encoding(t) && t.enc == Some(EncoderState(Buffered(c, s) + Concat(chunks), false, false))
    && t.out == Forward(s.out.(header := EncodedHeader(s.out.header, c.encoding)), s.status)
    && t.buff == None && t.buffLen == 0
  }

  /** Writes that eventually overflow the buffer leave the encoder holding the buffered prefix
      followed by every chunk, however the bytes were split into chunks. */
  lemma {:induction false} OverflowEncodesAll(c: Conf, s: State, chunks: seq<seq<byte>>)
    requires Inv(c, s) && Buffering(s) && c.factory == Builds(false)
    requires s.buffLen + TotalLen(chunks) > c.minSize
    ensures var t := WriteAll(c, s, chunks);
      && Encoding(t) && t.enc == Some(EncoderState(Buffered(c, s) + Concat(chunks), false, false))
      && t.out == Forward(s.out.(header := EncodedHeader(s.out.header, c.encoding)), s.status)
      && t.buff == None && t.buffLen == 0
    decreases |chunks|, 1
  {
    if s.buffLen + |chunks[0]| > c.minSize {
      OverflowNow(c, s, chunks);
    } else {
      OverflowLater(c, s, chunks);
    }
    assert EndsEncodingAll(c, s, chunks);
  }

  /** The first chunk overflows. */
  lemma OverflowNow(c: Conf, s: State, chunks: seq<seq<byte>>)
    requires Inv(c, s) && Buffering(s) && c.factory == Builds(false)
    requires chunks != [] && s.buffLen + |chunks[0]| > c.minSize
    ensures EndsEncodingAll(c, s, chunks)
  {
    var x := chunks[0];
    var s1 := WriteS(c, s, x).0;
    OverflowSwitches(c, s, x);
    EncodingAbsorbs(c, s1, chunks[1..]);
    assert Buffered(c, s) + x + Concat(chunks[1..]) == Buffered(c, s) + Concat(chunks);
  }

  /** The first chunk fits, and a later one overflows. */
  lemma {:induction false} OverflowLater(c: Conf, s: State, chunks: seq<seq<byte>>)
    requires Inv(c, s) && Buffering(s) && c.factory == Builds(false)
    requires s.buffLen + TotalLen(chunks) > c.minSize
    requires chunks != [] && s.buffLen + |chunks[0]| <= c.minSize
    ensures EndsEncodingAll(c, s, chunks)
    decreases |chunks|, 0
  {
    var x := chunks[0];
    var s1 := WriteS(c, s, x).0;
    BufferedWriteFits(c, s, x);
    WriteAllOk(c, s, chunks, s1);
    OverflowEncodesAll(c, s1, chunks[1..]);
    assert Buffered(c, s1) + Concat(chunks[1..]) == Buffered(c, s) + Concat(chunks);
  }

  /** A first write that does not panic hands the rest of the chunks to the state it leaves. */
  lemma WriteAllOk(c: Conf, s: State, chunks: seq<seq<byte>>, s1: State)
    requires Inv(c, s) && chunks != []
    requires WriteS(c, s, chunks[0]).0 == s1 && !WriteS(c, s, chunks[0]).1.Panic?
    ensures Inv(c, s1) && WriteAll(c, s, chunks) == WriteAll(c, s1, chunks[1..])
  {
  }
}
