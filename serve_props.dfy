/**
 * Whole requests through ServeHTTP: a handler that writes its body in chunks,
 * possibly after setting headers, on a wrapped writer; and four example
 * requests (text/plain with length 100000; text/plain in two or in one
 * 10-byte write under minSize 15; a handler-set br encoding), as written.
 */
module ServeProps {
  import opened Base
  import opened Http
  import opened Patterns
  import opened Decimal
  import opened Encoders
  import opened Registry
  import opened WriterSpec
  import opened WriterProps
  import opened WriterRequests
  import opened Compress

  /** A script of writes does to the wrapper what the writes do, one after the other. */
  lemma {:induction false} RunWrites(c: Conf, s: State, chunks: seq<seq<byte>>)
    requires Inv(c, s)
    ensures Run(c, s, Writes(chunks)).0 == WriteAll(c, s, chunks)
    decreases |chunks|
  {
    if chunks != [] {
      assert Writes(chunks)[1..] == Writes(chunks[1..]);
      RunWrites(c, WriteS(c, s, chunks[0]).0, chunks[1..]);
    }
  }

  /** The response ServeHTTP gives a handler that only writes, when the encoding is registered. */
  lemma ServedWrites(encoders: map<string, Encoder>, allowedType: seq<Pattern>, minSize: nat,
                     negotiated: string, call: Behaviour, out: Sink, chunks: seq<seq<byte>>)
    requires negotiated in encoders
    ensures var r := Served(encoders, allowedType, minSize, negotiated, call, out, Writes(chunks));
      var f := Respond(Conf(minSize, allowedType, call, negotiated), out, 200, chunks);
      r.out == f.out && r.enc == f.enc
  {
    RunWrites(Conf(minSize, allowedType, call, negotiated), Initial(out, 200), chunks);
  }

  /** Registered encoding, allowed type, unknown length, at most minSize bytes: the client gets the
      handler's bytes verbatim, the headers untouched and no encoder is made. */
  lemma ServedSmallBody(encoders: map<string, Encoder>, allowedType: seq<Pattern>, minSize: nat,
                        negotiated: string, call: Behaviour, out: Sink, chunks: seq<seq<byte>>)
    requires negotiated in encoders
    requires var c := Conf(minSize, allowedType, call, negotiated);
      Get(out.header, ContentEncoding) == "" && !TypeRefused(c, out.header) && !LengthAbove(c, out.header)
    requires TotalLen(chunks) <= minSize
    ensures var r := Served(encoders, allowedType, minSize, negotiated, call, out, Writes(chunks));
      r.out == Emit(out, Concat(chunks)) && r.enc == None
  {
    ServedWrites(encoders, allowedType, minSize, negotiated, call, out, chunks);
    SmallBodyVerbatim(Conf(minSize, allowedType, call, negotiated), out, 200, chunks);
  }

  /** ... and with more than minSize bytes and a working encoder: the encoder gets every byte in
      order and is closed, the headers announce the encoding, 200 is sent once, no raw byte leaks. */
  lemma ServedLargeBody(encoders: map<string, Encoder>, allowedType: seq<Pattern>, minSize: nat,
                        negotiated: string, out: Sink, chunks: seq<seq<byte>>)
    requires negotiated in encoders
    requires var c := Conf(minSize, allowedType, Builds(false), negotiated);
      Get(out.header, ContentEncoding) == "" && !TypeRefused(c, out.header) && !LengthAbove(c, out.header)
    requires TotalLen(chunks) > minSize
    ensures var r := Served(encoders, allowedType, minSize, negotiated, Builds(false), out, Writes(chunks));
      && r.out == Forward(out.(header := EncodedHeader(out.header, negotiated)), 200)
      && r.enc == Some(EncoderState(Concat(chunks), true, false))
  {
    ServedWrites(encoders, allowedType, minSize, negotiated, Builds(false), out, chunks);
    LargeBodyEncoded(Conf(minSize, allowedType, Builds(false), negotiated), out, 200, chunks);
  }

  /** Setting a header before anything else is the same as the request arriving with it set. */
  lemma ServedSetFirst(encoders: map<string, Encoder>, allowedType: seq<Pattern>, minSize: nat,
                       negotiated: string, call: Behaviour, out: Sink, k: string, v: string, rest: seq<Action>)
    requires negotiated in encoders
    ensures Served(encoders, allowedType, minSize, negotiated, call, out, [HeaderSet(k, v)] + rest)
         == Served(encoders, allowedType, minSize, negotiated, call, out.(header := Set(out.header, k, v)), rest)
  {
    var c := Conf(minSize, allowedType, call, negotiated);
    var script := [HeaderSet(k, v)] + rest;
    assert script[0] == HeaderSet(k, v) && script[1..] == rest;
    assert Step(c, Initial(out, 200), script[0]) == (Initial(out.(header := Set(out.header, k, v)), 200), false);
  }

  // ---- example requests ----

  /** No headers and no status yet. */
  function Fresh(): Sink
  {
    Sink(map[], [], [])
  }

  /** The headers of the known-length example. */
  function DeclaredText(): Header
  {
    Set(Set(map[], ContentType, "text/plain"), ContentLength, "100000")
  }

  /** Under the default allow-list text/plain is not refused. */
  lemma DeclaredTextAllowed(c: Conf)
    requires c.allowedType == DefaultAllowedTypes()
    ensures !TypeRefused(c, DeclaredText())
  {
    assert Get(DeclaredText(), ContentType) == "text/plain";
    DefaultAllowList();
  }

  /** A declared length of 100000 is above minSize 4096. */
  lemma DeclaredTextLong(c: Conf)
    requires c.minSize == 4096
    ensures LengthAbove(c, DeclaredText())
  {
    assert Get(DeclaredText(), ContentLength) == "100000";
    ParseFormatRoundTrip(100000);
    assert Format(100000) == "100000";
  }

  /** Under minSize 4096 those headers allow encoding and announce a length above minSize. */
  lemma DeclaredTextIsLarge(call: Behaviour)
    ensures var c := Conf(4096, DefaultAllowedTypes(), call, "gzip");
      Get(DeclaredText(), ContentEncoding) == "" && !TypeRefused(c, DeclaredText()) && LengthAbove(c, DeclaredText())
  {
    var c := Conf(4096, DefaultAllowedTypes(), call, "gzip");
    DeclaredTextAllowed(c);
    DeclaredTextLong(c);
  }

  /** WriteHeader(400) with those headers switches to encoding at once and keeps the status. */
  lemma KnownLengthHeader(call: Behaviour)
    requires call.Builds?
    ensures var s := WriteHeaderS(Conf(4096, DefaultAllowedTypes(), call, "gzip"),
                                  Initial(Fresh().(header := DeclaredText()), 200), 400);
      s.shouldEncode && !s.dontEncode && s.status == 400 && s.out.statuses == [400]
  {
    var c := Conf(4096, DefaultAllowedTypes(), call, "gzip");
    DeclaredTextIsLarge(call);
    WriteHeaderKnownLength(c, Initial(Fresh().(header := DeclaredText()), 200), 400);
  }

  /** text/plain with content-length 100000 and minSize 4096: encoding starts at the first write,
      the response carries content-encoding gzip and no content-length, status 200 is sent once,
      and the encoder receives the handler's bytes. */
  lemma KnownLengthScenario(encoders: map<string, Encoder>, chunks: seq<seq<byte>>)
    requires "gzip" in encoders && chunks != []
    ensures var r := Served(encoders, DefaultAllowedTypes(), 4096, "gzip", Builds(false), Fresh(),
                            [HeaderSet(ContentType, "text/plain"), HeaderSet(ContentLength, "100000")] + Writes(chunks));
      && Get(r.out.header, ContentEncoding) == "gzip" && ContentLength !in r.out.header
      && r.out.statuses == [200] && r.out.body == []
      && r.enc == Some(EncoderState(Concat(chunks), true, false))
  {
    var c := Conf(4096, DefaultAllowedTypes(), Builds(false), "gzip");
    var h1 := Set(map[], ContentType, "text/plain");
    var out := Fresh().(header := DeclaredText());
    var rest := [HeaderSet(ContentLength, "100000")] + Writes(chunks);
    assert [HeaderSet(ContentType, "text/plain"), HeaderSet(ContentLength, "100000")] + Writes(chunks)
        == [HeaderSet(ContentType, "text/plain")] + rest;
    ServedSetFirst(encoders, DefaultAllowedTypes(), 4096, "gzip", Builds(false), Fresh(),
                   ContentType, "text/plain", rest);
    ServedSetFirst(encoders, DefaultAllowedTypes(), 4096, "gzip", Builds(false), Fresh().(header := h1),
                   ContentLength, "100000", Writes(chunks));
    DeclaredTextIsLarge(Builds(false));
    ServedWrites(encoders, DefaultAllowedTypes(), 4096, "gzip", Builds(false), out, chunks);
    FirstWriteSendsHeader(c, Initial(out, 200), chunks);
    KnownLengthEncoded(c, out, 200, chunks);
  }

  /** text/plain, unknown length, minSize 15, two writes of 10 bytes: the response is encoded and
      the encoder receives the 20 bytes in order. */
  lemma TwoWritesScenario(encoders: map<string, Encoder>, a: seq<byte>, b: seq<byte>)
    requires "gzip" in encoders && |a| == 10 && |b| == 10
    ensures var r := Served(encoders, DefaultAllowedTypes(), 15, "gzip", Builds(false), Fresh(),
                            [HeaderSet(ContentType, "text/plain")] + Writes([a, b]));
      && Get(r.out.header, ContentEncoding) == "gzip"
      && r.out.statuses == [200] && r.out.body == []
      && r.enc == Some(EncoderState(a + b, true, false))
  {
    var c := Conf(15, DefaultAllowedTypes(), Builds(false), "gzip");
    var h := Set(map[], ContentType, "text/plain");
    var out := Fresh().(header := h);
    ServedSetFirst(encoders, DefaultAllowedTypes(), 15, "gzip", Builds(false), Fresh(),
                   ContentType, "text/plain", Writes([a, b]));
    DefaultAllowList();
    assert !TypeRefused(c, h) && !LengthAbove(c, h) && Get(h, ContentEncoding) == "";
    assert Concat([a, b]) == a + b by {
      assert [a, b][1..] == [b];
      assert [b][1..] == [];
    }
    ServedLargeBody(encoders, DefaultAllowedTypes(), 15, "gzip", out, [a, b]);
  }

  /** The same with a single write of 10 bytes: no content-encoding, the 10 bytes verbatim, and
      no encoder. The held status 200 is never sent to the underlying writer. */
  lemma OneWriteScenario(encoders: map<string, Encoder>, call: Behaviour, a: seq<byte>)
    requires "gzip" in encoders && |a| == 10
    ensures var r := Served(encoders, DefaultAllowedTypes(), 15, "gzip", call, Fresh(),
                            [HeaderSet(ContentType, "text/plain")] + Writes([a]));
      && ContentEncoding !in r.out.header
      && r.out.statuses == [] && r.out.body == a && r.enc == None
  {
    var c := Conf(15, DefaultAllowedTypes(), call, "gzip");
    var h := Set(map[], ContentType, "text/plain");
    var out := Fresh().(header := h);
    ServedSetFirst(encoders, DefaultAllowedTypes(), 15, "gzip", call, Fresh(),
                   ContentType, "text/plain", Writes([a]));
    DefaultAllowList();
    assert !TypeRefused(c, h) && !LengthAbove(c, h) && Get(h, ContentEncoding) == "";
    assert Concat([a]) == a by {
      assert [a][1..] == [];
    }
    ServedSmallBody(encoders, DefaultAllowedTypes(), 15, "gzip", call, out, [a]);
  }

  /** content-encoding br set by the handler, then one small write: as written, the status is
      forwarded, the bytes are reported as 0 written and never reach the client. */
  lemma PresetEncodingScenario(encoders: map<string, Encoder>, call: Behaviour, a: seq<byte>)
    requires "gzip" in encoders && 0 < |a| <= 4096
    ensures var r := Served(encoders, DefaultAllowedTypes(), 4096, "gzip", call, Fresh(),
                            [HeaderSet(ContentEncoding, "br")] + Writes([a]));
      && Get(r.out.header, ContentEncoding) == "br"
      && r.out.statuses == [200] && r.out.body == [] && r.enc == None
  {
    var c := Conf(4096, DefaultAllowedTypes(), call, "gzip");
    var h := Set(map[], ContentEncoding, "br");
    var out := Fresh().(header := h);
    ServedSetFirst(encoders, DefaultAllowedTypes(), 4096, "gzip", call, Fresh(),
                   ContentEncoding, "br", Writes([a]));
    ServedWrites(encoders, DefaultAllowedTypes(), 4096, "gzip", call, out, [a]);
    PresetEncodingDropsSmallWrite(c, out, 200, a);
    assert WriteAll(c, Initial(out, 200), [a]) == WriteS(c, Initial(out, 200), a).0 by {
      assert [a][1..] == [];
    }
  }
}
