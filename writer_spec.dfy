/**
 * The buffering response writer of writer.go as a state machine over
 * values. Each function is one method of the writer, step for step; the
 * class in module Writer is proved to change its fields exactly as these
 * functions say, and the lemmas below state what whole sequences of calls do.
 */
module WriterSpec {
  import opened Base
  import opened Http
  import opened Patterns
  import opened Decimal
  import opened Encoders

  /** What the underlying writer holds: its header map, the statuses sent, the body. */
  datatype Sink = Sink(header: Header, statuses: seq<int>, body: seq<byte>)

  /** What a stream encoder has been given, and whether it was closed. */
  datatype EncoderState = EncoderState(received: seq<byte>, closed: bool, failing: bool)

  /** What a writer is created with: the middleware's minSize and allow-list,
      the behaviour of the negotiated encoder's factory, and the negotiated name. */
  datatype Conf = Conf(minSize: nat, allowedType: seq<Pattern>, factory: Behaviour, encoding: string)

  /** The fields of middlewareWriter, with the underlying writer and the encoder as values. */
  datatype State = State(
    out: Sink,
    enc: Option<EncoderState>,
    status: int,
    headerSent: bool,
    dontEncode: bool,
    shouldEncode: bool,
    buff: Option<seq<byte>>,
    buffLen: nat)

  /** What every method keeps: the buffer has minSize bytes, at most buffLen of them
      in use, and an encoder exists whenever the writer has switched to encoding. */
  predicate Inv(c: Conf, s: State)
  {
    && (s.buff.Some? ==> |s.buff.value| == c.minSize)
    && s.buffLen <= c.minSize
    && (s.shouldEncode ==> s.enc.Some? && c.factory.Builds?)
  }

  /** The writer ServeHTTP creates: nothing decided, nothing buffered. */
  function Initial(out: Sink, status: int): State
  {
    State(out, None, status, false, false, false, None, 0)
  }

  function Forward(out: Sink, status: int): Sink
  {
    out.(statuses := out.statuses + [status])
  }

  function Emit(out: Sink, bytes: seq<byte>): Sink
  {
    out.(body := out.body + bytes)
  }

  /** The headers as startEncoding leaves them: no length, the negotiated encoding added. */
  function EncodedHeader(h: Header, encoding: string): Header
  {
    Add(Del(h, ContentLength), ContentEncoding, encoding)
  }

  /** The bytes in use in the buffer. */
  function Buffered(c: Conf, s: State): seq<byte>
    requires Inv(c, s) && s.buff.Some?
  {
    s.buff.value[..s.buffLen]
  }

  /** `x` copied into `b` at offset `off`. */
  function Place(b: seq<byte>, off: nat, x: seq<byte>): (r: seq<byte>)
    requires off + |x| <= |b|
    ensures |r| == |b| && r[..off + |x|] == b[..off] + x
  {
    b[..off] + x + b[off + |x|..]
  }

  /** The content-type forbids encoding (writer.go:53-54). */
  function TypeRefused(c: Conf, h: Header): (r: bool)
    ensures Get(h, ContentType) == "" ==> !r
    ensures Get(h, ContentType) != "" ==>
      (r <==> forall i :: 0 <= i < |c.allowedType| ==> !Matches(c.allowedType[i], Get(h, ContentType)))
  {
    Get(h, ContentType) != "" && !MatchesAny(c.allowedType, Get(h, ContentType))
  }

  /** The content-length is readable and strictly above minSize (writer.go:61-64). */
  function LengthAbove(c: Conf, h: Header): (r: bool)
    ensures r ==> var clen := Get(h, ContentLength);
      |clen| > 0 && AllDigits(clen) && c.minSize < Value(clen) < Uint64Limit
  {
    var clen := Get(h, ContentLength);
    clen != "" && ParseUint(clen).Some? && ParseUint(clen).value > c.minSize
  }

  /** A content-length written as the decimal spelling of a 64-bit value `n` is above minSize
      exactly when `n` is. */
  lemma LengthAboveFormat(c: Conf, h: Header, n: nat)
    requires n < Uint64Limit && Get(h, ContentLength) == Format(n)
    ensures LengthAbove(c, h) <==> n > c.minSize
  {
    ParseFormatRoundTrip(n);
  }

  /** flush: close the encoder if there is one, then write out what is buffered. */
  function FlushS(c: Conf, s: State): (r: State)
    requires Inv(c, s)
    ensures Inv(c, r)
  {
    var s1 := if s.enc.Some? then s.(enc := Some(s.enc.value.(closed := true))) else s;
    if s1.buff.Some? && s1.buffLen > 0 then s1.(out := Emit(s1.out, s1.buff.value[..s1.buffLen])) else s1
  }

  /** startEncoding: call the factory; on success switch the headers and send the held status,
      on failure flush, give up encoding and report false. */
  function StartEncodingS(c: Conf, s: State): (r: (State, bool))
    requires Inv(c, s)
    ensures Inv(c, r.0)
  {
    match c.factory
    case Refuses =>
      var f := FlushS(c, s.(enc := None));
      (f.(dontEncode := true), false)
    case Builds(fails) =>
      var out := s.out.(header := EncodedHeader(s.out.header, c.encoding));
      (s.(enc := Some(EncoderState([], false, fails)), shouldEncode := true, out := Forward(out, s.status)), true)
  }

  /** WriteHeader: record the status, then decide. */
  function WriteHeaderS(c: Conf, s: State, status: int): (r: State)
    requires Inv(c, s)
    ensures Inv(c, r)
  {
    var s1 := s.(status := status, headerSent := true);
    if Get(s.out.header, ContentEncoding) != "" then s1.(out := Forward(s1.out, status))
    else DecideS(c, s1)
  }

  /** The rest of WriteHeader once no content-encoding is set: refuse by type, start encoding on a
      large declared length, or buffer. */
  function DecideS(c: Conf, s: State): (r: State)
    requires Inv(c, s)
    ensures Inv(c, r)
  {
    var h := s.out.header;
    if TypeRefused(c, h) then
      s.(dontEncode := true, out := Forward(s.out, s.status))
    else if LengthAbove(c, h) then
      StartEncodingS(c, s).0
    else
      s.(buff := Some(Zeros(c.minSize)))
  }

  /** A write to the encoder. */
  function EncWrite(s: State, bytes: seq<byte>): (r: (State, WriteResult))
    requires s.enc.Some?
  {
    var e := s.enc.value;
    if e.failing then (s, Err) else (s.(enc := Some(e.(received := e.received + bytes))), Ok(|bytes|))
  }

  /** A write to the encoder reports Err exactly when the encoder's writes fail; otherwise it
      reports every byte and appends them to what the encoder received. Nothing but what the
      encoder received changes. */
  lemma EncWriteAppends(s: State, bytes: seq<byte>)
    requires s.enc.Some?
    ensures var (r, res) := EncWrite(s, bytes);
      && res == (if s.enc.value.failing then Err else Ok(|bytes|))
      && r.enc.Some? && r == s.(enc := Some(s.enc.value.(received := r.enc.value.received)))
      && r.enc.value.received == if res.Ok? then s.enc.value.received + bytes else s.enc.value.received
  {
  }

  /** Write, when the chunk would overflow the buffer: try to start the encoder; on success give it
      the buffered prefix, drop the buffer and give it the chunk; on failure write the chunk verbatim. */
  function SpillS(c: Conf, s: State, chunk: seq<byte>): (r: (State, WriteResult))
    requires Inv(c, s)
    ensures Inv(c, r.0)
  {
    var (s1, started) := StartEncodingS(c, s);
    if !started then (s1.(out := Emit(s1.out, chunk)), Ok(|chunk|))
    else if s1.buffLen > 0 && s1.buff.None? then (s1, Panic)
    else
      var (s2, r2) := if s1.buffLen > 0 then EncWrite(s1, s1.buff.value[..s1.buffLen]) else (s1, Ok(0));
      if r2.Err? then (s2, Err) else EncWrite(s2.(buff := None, buffLen := 0), chunk)
  }

  /** Write, when the chunk fits: Go's copy into buff at offset buffLen, which copies as many bytes
      as the buffer has room for and panics when the offset lies past its end. */
  function CopyS(c: Conf, s: State, chunk: seq<byte>): (r: (State, WriteResult))
    requires Inv(c, s) && s.buffLen + |chunk| <= c.minSize
    ensures Inv(c, r.0)
  {
    var room := if s.buff.Some? then |s.buff.value| else 0;
    if s.buffLen > room then (s, Panic)
    else
      var n := Min(room - s.buffLen, |chunk|);
      var b := if s.buff.Some? then Some(Place(s.buff.value, s.buffLen, chunk[..n])) else None;
      (s.(buff := b, buffLen := s.buffLen + |chunk|), Ok(n))
  }

  /** Write: send the header if not yet done, then encode, pass through, spill over or buffer. */
  function WriteS(c: Conf, s: State, chunk: seq<byte>): (r: (State, WriteResult))
    requires Inv(c, s)
    ensures Inv(c, r.0)
  {
    var s0 := if s.headerSent then s else WriteHeaderS(c, s, s.status);
    if s0.shouldEncode then EncWrite(s0, chunk)
    else if s0.dontEncode then (s0.(out := Emit(s0.out, chunk)), Ok(|chunk|))
    else if s0.buffLen + |chunk| > c.minSize then SpillS(c, s0, chunk)
    else CopyS(c, s0, chunk)
  }

  /** A handler's successive writes; a panic ends the handler. */
  function WriteAll(c: Conf, s: State, chunks: seq<seq<byte>>): (r: State)
    requires Inv(c, s)
    ensures Inv(c, r)
    decreases |chunks|
  {
    if chunks == [] then s
    else
      var (s1, res) := WriteS(c, s, chunks[0]);
      if res.Panic? then s1 else WriteAll(c, s1, chunks[1..])
  }
}
