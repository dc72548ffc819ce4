/**
 * Whole responses through the writer: the handler's writes followed by the
 * flush that ServeHTTP defers. The last group states where writer.go loses,
 * repeats or alters the handler's bytes or headers; it is modelled as written.
 */
module WriterRequests {
  import opened Base
  import opened Http
  import opened Encoders
  import opened WriterSpec
  import opened WriterProps

  /** The response a handler gets when it only writes, and the deferred flush then runs. */
  function Respond(c: Conf, out: Sink, status: int, chunks: seq<seq<byte>>): State
  {
    FlushS(c, WriteAll(c, Initial(out, status), chunks))
  }

  /** Allowed type, unknown length, body of at most minSize bytes: the body arrives verbatim and the
      headers are untouched (no content-encoding). The held status is never sent to the underlying writer. */
  lemma {:induction false} SmallBodyVerbatim(c: Conf, out: Sink, status: int, chunks: seq<seq<byte>>)
    requires Get(out.header, ContentEncoding) == "" && !TypeRefused(c, out.header) && !LengthAbove(c, out.header)
    requires TotalLen(chunks) <= c.minSize
    ensures Respond(c, out, status, chunks).out == Emit(out, Concat(chunks))
    ensures Respond(c, out, status, chunks).enc == None
  {
    if chunks != [] {
      var s := Initial(out, status);
      FirstWriteSendsHeader(c, s, chunks);
      var h := WriteHeaderS(c, s, status);
      WriteHeaderUnknownLength(c, s, status);
      assert Buffered(c, h) == [];
      BufferingAbsorbs(c, h, chunks);
    }
  }

  /** Allowed type, unknown length, more than minSize bytes, working encoder: the encoder receives
      every byte in order and is closed; content-length is removed, content-encoding names the
      negotiated encoding, the status is sent exactly once and no raw byte reaches the body. */
  lemma {:induction false} LargeBodyEncoded(c: Conf, out: Sink, status: int, chunks: seq<seq<byte>>)
    requires Get(out.header, ContentEncoding) == "" && !TypeRefused(c, out.header) && !LengthAbove(c, out.header)
    requires c.factory == Builds(false) && TotalLen(chunks) > c.minSize
    ensures Respond(c, out, status, chunks).out == Forward(out.(header := EncodedHeader(out.header, c.encoding)), status)
    ensures Respond(c, out, status, chunks).enc == Some(EncoderState(Concat(chunks), true, false))
  {
    var s := Initial(out, status);
    FirstWriteSendsHeader(c, s, chunks);
    var h := WriteHeaderS(c, s, status);
    WriteHeaderUnknownLength(c, s, status);
    assert Buffered(c, h) == [];
    OverflowEncodesAll(c, h, chunks);
    assert Buffered(c, h) + Concat(chunks) == Concat(chunks);
  }

  /** A declared content-length above minSize: WriteHeader already switches to encoding, and then
      every chunk goes to the encoder. */
  lemma {:induction false} KnownLengthEncoded(c: Conf, out: Sink, status: int, chunks: seq<seq<byte>>)
    requires Get(out.header, ContentEncoding) == "" && !TypeRefused(c, out.header) && LengthAbove(c, out.header)
    requires c.factory == Builds(false)
    ensures var h := WriteHeaderS(c, Initial(out, status), status);
      && Encoding(h) && h.enc == Some(EncoderState([], false, false))
      && FlushS(c, WriteAll(c, h, chunks)).enc == Some(EncoderState(Concat(chunks), true, false))
      && FlushS(c, WriteAll(c, h, chunks)).out == Forward(out.(header := EncodedHeader(out.header, c.encoding)), status)
  {
    var s := Initial(out, status);
    WriteHeaderKnownLength(c, s, status);
    var h := WriteHeaderS(c, s, status);
    EncodingAbsorbs(c, h, chunks);
    assert [] + Concat(chunks) == Concat(chunks);
  }

  /** A content-type outside the allow-list: status forwarded once, headers untouched, body verbatim. */
  lemma {:induction false} RefusedTypeVerbatim(c: Conf, out: Sink, status: int, chunks: seq<seq<byte>>)
    requires Get(out.header, ContentEncoding) == "" && TypeRefused(c, out.header)
    ensures var h := WriteHeaderS(c, Initial(out, status), status);
      FlushS(c, WriteAll(c, h, chunks)).out == Emit(Forward(out, status), Concat(chunks))
  {
    var s := Initial(out, status);
    WriteHeaderRefusedType(c, s, status);
    PassthroughAbsorbs(c, WriteHeaderS(c, s, status), chunks);
  }

  // ---- writer.go losing, repeating or altering bytes and headers ----

  /** Factory failure on spill-over: the buffered prefix is written, then the chunk, and the deferred
      flush writes the prefix a second time, because startEncoding's flush does not clear the buffer.
      The held status is never forwarded. */
  lemma FactoryRefusalRepeatsPrefix(c: Conf, s: State, chunk: seq<byte>)
    requires Inv(c, s) && Buffering(s) && c.factory == Refuses
    requires s.buffLen > 0 && s.buffLen + |chunk| > c.minSize
    ensures var (t, r) := WriteS(c, s, chunk);
      && r == Ok(|chunk|) && Passthrough(t)
      && t.out == Emit(s.out, Buffered(c, s) + chunk)
      && FlushS(c, t).out == Emit(s.out, Buffered(c, s) + chunk + Buffered(c, s))
  {
    var p := Buffered(c, s);
    assert s.out.body + p + chunk + p == s.out.body + (p + chunk + p);
  }

  /** A content-encoding set by the handler leaves no buffer behind: a first write of at most minSize
      bytes reports 0 bytes written, is kept nowhere, and the flush sends nothing. */
  lemma PresetEncodingDropsSmallWrite(c: Conf, out: Sink, status: int, chunk: seq<byte>)
    requires Get(out.header, ContentEncoding) != "" && 0 < |chunk| <= c.minSize
    ensures var (t, r) := WriteS(c, Initial(out, status), chunk);
      && r == Ok(0) && t.out == Forward(out, status) && t.buff == None && t.buffLen == |chunk|
      && FlushS(c, t).out == Forward(out, status)
  {
  }

  /** ... and a second small write then slices the missing buffer and panics. */
  lemma PresetEncodingSecondWritePanics(c: Conf, out: Sink, status: int, a: seq<byte>, b: seq<byte>)
    requires Get(out.header, ContentEncoding) != "" && 0 < |a| && |a| + |b| <= c.minSize
    ensures WriteS(c, WriteS(c, Initial(out, status), a).0, b).1 == Panic
  {
    PresetEncodingDropsSmallWrite(c, out, status, a);
  }

  /** A content-encoding set by the handler and then a write of more than minSize bytes: the
      overflow path starts the encoder anyway, appends the negotiated name as a second
      content-encoding value, sends the status a second time and encodes the chunk. */
  lemma PresetEncodingLargeWriteEncodes(c: Conf, out: Sink, status: int, chunk: seq<byte>)
    requires Get(out.header, ContentEncoding) != "" && c.factory == Builds(false) && |chunk| > c.minSize
    ensures var (t, r) := WriteS(c, Initial(out, status), chunk);
      && r == Ok(|chunk|) && Encoding(t)
      && t.enc == Some(EncoderState(chunk, false, false))
      && t.out.header[ContentEncoding] == out.header[ContentEncoding] + [c.encoding]
      && t.out.statuses == out.statuses + [status, status]
      && t.out.body == out.body
  {
    var h := WriteHeaderS(c, Initial(out, status), status);
    WriteHeaderPresetEncoding(c, Initial(out, status), status);
    assert h.out == Forward(out, status) && h.buff == None && h.buffLen == 0;
    StartEncodingSucceeds(c, h);
    assert [] + chunk == chunk;
  }

  /** A second WriteHeader while buffering allocates a fresh zeroed buffer but keeps buffLen, so
      the bytes buffered so far are replaced by zeros, and flush writes buffLen zero bytes. */
  lemma SecondWriteHeaderZeroes(c: Conf, s: State, status: int)
    requires Inv(c, s) && Buffering(s)
    requires Get(s.out.header, ContentEncoding) == "" && !TypeRefused(c, s.out.header) && !LengthAbove(c, s.out.header)
    ensures var h := WriteHeaderS(c, s, status);
      && Buffered(c, h) == Zeros(s.buffLen)
      && FlushS(c, h).out.body == s.out.body + (if s.buffLen > 0 then Zeros(s.buffLen) else [])
  {
    WriteHeaderUnknownLength(c, s, status);
    assert Zeros(c.minSize)[..s.buffLen] == Zeros(s.buffLen);
  }
}
