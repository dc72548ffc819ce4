# http-compress, modelled in Dafny

A model of the response-compression middleware of `abihf/http-compress`.
It covers these parts:

- **The buffering response writer** (`middlewareWriter`). It decides from the response headers whether to compress.
  - A pre-set `content-encoding` means forward the status and keep no buffer; later writes then go through the ordinary size logic, with the consequences listed under "Behaviour as written".
  - A content-type outside the allow-list means pass the body through.
  - A declared length above `minSize` means start the encoder at once.
  - Otherwise the writer buffers up to `minSize` bytes. It switches to the encoder the moment a write would overflow the buffer.
  - `flush` runs at the end of every wrapped request. It closes the encoder or writes out what is still buffered.
- **The encoder registry.** The options register or remove encoders and set the allow-list, the minimum size and the error handler. `populateSupportedEncoding` turns the registry into a list of names in ascending priority.
- **Configuration.** `newConfig` and `newMiddleware` apply the defaults, register gzip at priority 100, and run the caller's options in order.
- **`ServeHTTP`.** It calls the handler directly when the negotiated encoding is not registered. Otherwise it wraps the response writer, runs the handler and always flushes.

Each imperative part is modelled as a class with the source's fields.

- `Writer.MiddlewareWriter` has `WriteHeader`, `StartEncoding`, `Write` and `Flush`.
- `Configuration.Config` and `Compress.Middleware` hold the registry and options, and both have `PopulateSupportedEncoding`. Only `Compress.Middleware` has `ServeHTTP`.
- `Http.ResponseWriter` is the underlying writer: a header map, the log of statuses and the body.
- `Encoders.StreamEncoder` is the encoder: the bytes it received and whether it is closed.

Every writer method is proved to change the writer, the underlying writer and the encoder exactly as a pure step function of module `WriterSpec` says. The behaviour of whole requests is proved over those functions:

- `WriterProps` covers single calls and runs of writes.
- `WriterRequests` covers responses produced by writes plus the final flush.
- `ServeProps` covers `ServeHTTP` with a scripted handler, and four example requests: text/plain with declared length 100000 under minSize 4096, text/plain written as two or as one 10-byte write under minSize 15, and a handler-set `br` encoding.

`populateSupportedEncoding` works in three steps:
1. It collects the entries in any order. The `:|` choice stands for Go's random map iteration order.
2. It sorts them in place by priority.
3. It keeps the names.

The result is proved to be a permutation of the registered names in non-decreasing priority. With distinct priorities, exactly one such list exists (`Registry.SupportedOrderUnique`).

### Behaviour as written

`writer.go` is modelled as written, including these consequences, each proved as a lemma:

- **A factory failure during spill-over duplicates the buffered prefix.** `startEncoding` flushes the buffer but does not clear it, so the deferred `flush` writes the prefix again (`WriterRequests.FactoryRefusalRepeatsPrefix`).
- **The held status is never sent on the buffering path.** A buffered response that stays at or below `minSize` has its bytes flushed verbatim, but its status (200 or the handler's own) is never passed to the underlying writer. The same is true after a factory failure (`WriterRequests.SmallBodyVerbatim`, `ServeProps.OneWriteScenario`).
- **A `content-encoding` set by the handler loses small writes.** `WriteHeader` leaves no buffer, so the first write of at most `minSize` bytes reports 0 bytes written and is lost. A second such write slices the missing buffer and panics (`WriterRequests.PresetEncodingDropsSmallWrite`, `WriterRequests.PresetEncodingSecondWritePanics`, `ServeProps.PresetEncodingScenario`).
- **Content-type and content-length.** An empty `content-type` does not mean pass-through; the length and buffering logic decides. A declared `content-length` at or below `minSize` leads to buffering, not pass-through. Both comparisons with `minSize` are strict (`len > minSize`, `buffLen + len(chunk) > minSize`).
- **A `content-encoding` set by the handler does not stop a large write from being encoded.** A first write of more than `minSize` bytes overflows, so `startEncoding` runs: the negotiated name is added as a second `content-encoding` value, the status is sent a second time and the chunk goes to the encoder (`WriterRequests.PresetEncodingLargeWriteEncodes`).
- **A second `WriteHeader` call while buffering zeroes the buffered bytes.** It allocates a fresh zeroed buffer of `minSize` bytes but keeps `buffLen`, so `flush` writes `buffLen` zero bytes in place of what the handler wrote, and a later spill-over feeds those zeros to the encoder (`WriterRequests.SecondWriteHeaderZeroes`). The slicing panic of `CopyS` on a buffer shorter than `buffLen` is reached only through the missing buffer after a pre-set `content-encoding`.

## Model

| member | source | states |
|---|---|---|
| Patterns.MatchRegexes | writer.go:33-40 | the result is true exactly when some pattern of the list matches the string; the loop stops at the first match |
| Patterns.DefaultAllowedTypes | config.go:14-20 | the default allow-list has five patterns, one per entry of the Go list; which types they admit and refuse is stated by DefaultAllowList and DefaultRejectsPng |
| Patterns.DefaultAllowList | config.go:14-20 | the default list admits text/plain, JSON with a charset parameter, a +xml type and SVG |
| Patterns.DefaultRejectsPng | middleware.go:32-38 | the default list does not admit image/png |
| Decimal.ParseUint | writer.go:61-63 | a parsed content-length is below 2^64, and an empty string is never a number |
| Decimal.ParseFormatRoundTrip | writer.go:62 | every 64-bit value's decimal spelling parses back to that value |
| Decimal.ValueOfFormat | writer.go:62 | the digit value of a number's decimal spelling is the number |
| Decimal.ParseRejectsNonDigit | writer.go:62-63 | a string with any non-digit (sign, space, letter) fails to parse, so the length is ignored |
| Decimal.LeadingZero | writer.go:62 | leading zeros do not change the parsed value |
| Http.ResponseWriter.Write | writer_test.go:71-73 | the underlying writer appends the chunk to the body, reports its full length and changes nothing else |
| Http.ResponseWriter.WriteHeader | writer_test.go:75-77 | the underlying writer records the status and changes nothing else |
| Encoders.StreamEncoder.Write | writer.go:111-113 | a working encoder appends the chunk and reports its length; a failing one reports an error and keeps nothing |
| Encoders.StreamEncoder.Close | writer.go:128-130 | closing marks the encoder closed and keeps what it received |
| WriterSpec.WriteHeaderS | writer.go:42-73 | the header decision keeps the writer invariant: the buffer holds minSize bytes, buffLen stays at most minSize, and encoding implies an encoder exists |
| WriterSpec.DecideS | writer.go:53-72 | the decision after the content-encoding check keeps the writer invariant |
| WriterSpec.TypeRefused | writer.go:53-54 | an empty content-type is never refused; a non-empty one is refused exactly when no pattern of the allow-list matches it |
| WriterSpec.LengthAbove | writer.go:61-64 | a length that counts as above minSize is a non-empty string of digits whose value is above minSize and below 2^64 |
| WriterSpec.LengthAboveFormat | writer.go:61-64 | a content-length that spells a 64-bit value n counts as above minSize exactly when n > minSize |
| WriterSpec.EncWriteAppends | writer.go:101 | a write to the encoder reports Err exactly when its writes fail, otherwise the full length; on success the bytes are appended to what it received, and nothing else in the writer changes |
| WriterSpec.StartEncodingS | writer.go:75-91 | starting the encoder, on success or failure, keeps the writer invariant |
| WriterSpec.WriteS | writer.go:93-125 | every Write keeps the writer invariant, including buffLen <= minSize |
| WriterSpec.SpillS | writer.go:107-121 | spilling the buffer into a new encoder keeps the writer invariant |
| WriterSpec.CopyS | writer.go:122-124 | copying a chunk that fits keeps the writer invariant |
| WriterSpec.FlushS | writer.go:127-134 | flush keeps the writer invariant |
| WriterSpec.WriteAll | middleware.go:68 | a handler's sequence of writes, ended by a panic if one happens, keeps the writer invariant |
| WriterSpec.Place | writer.go:122 | copying x in at offset off keeps the buffer's length; the bytes before off are kept and x follows them |
| WriterProps.WriteHeaderPresetEncoding | writer.go:48-51 | with content-encoding already set, WriteHeader records the status, sets headerSent, forwards the status unchanged and touches nothing else (no encoder, dontEncode unchanged) |
| WriterProps.WriteHeaderRefusedType | writer.go:53-58 | a non-empty content-type that no pattern matches sets dontEncode and forwards the status, leaving the rest as it was |
| WriterProps.WriteHeaderKnownLength | writer.go:61-67 | a content-length above minSize starts the encoder inside WriteHeader: shouldEncode, an empty open encoder, content-length removed, content-encoding added, the status sent once |
| WriterProps.WriteHeaderUnknownLength | writer.go:71-72 | otherwise a zeroed buffer of exactly minSize bytes is allocated and no status is forwarded |
| WriterProps.StartEncodingSucceeds | writer.go:86-90 | on factory success: true, shouldEncode, a fresh encoder, content-length gone, the negotiated name appended to content-encoding, the held status forwarded exactly once, no body byte written |
| WriterProps.StartEncodingRefused | writer.go:77-84 | on factory failure: false, dontEncode, no encoder, the buffered bytes written verbatim; the buffer is not cleared and no status is sent |
| WriterProps.PassthroughWrite | writer.go:103-105 | after dontEncode, a chunk goes verbatim to the underlying writer and its full length is reported |
| WriterProps.BufferedWriteFits | writer.go:122-124 | a chunk that fits is appended to the buffered bytes, buffLen grows by its length, nothing reaches the underlying writer, its length is reported |
| WriterProps.OverflowSwitches | writer.go:107-118 | a chunk that overflows starts the encoder, which receives the buffered prefix and then the chunk; buff becomes nil and buffLen 0 |
| WriterProps.FirstWriteSendsHeader | writer.go:94-96 | a handler's first Write without an earlier WriteHeader behaves as WriteHeader with the held status followed by the writes |
| WriterProps.FlushFinishes | writer.go:127-134 | flush closes an open encoder, writes the remaining buff[0:buffLen] verbatim when there is one, and sends no status |
| WriterProps.BufferingAbsorbs | writer.go:107-124 | writes that together fit stay in the buffer, in order, and nothing is sent |
| WriterProps.EncodingAbsorbs | writer.go:100-102 | once encoding, every chunk goes to the encoder in order and nothing else changes |
| WriterProps.PassthroughAbsorbs | writer.go:103-105 | once passing through, the body is the handler's chunks concatenated, in order |
| WriterProps.OverflowEncodesAll | writer.go:107-124 | writes that eventually overflow leave the encoder holding the buffered prefix followed by every byte, however the bytes were split into chunks |
| WriterRequests.SmallBodyVerbatim | writer.go:71-72 | allowed type, unknown length and at most minSize bytes in total: after flush, the body is the bytes verbatim, headers unchanged, no encoder, no status sent |
| WriterRequests.LargeBodyEncoded | writer.go:107-134 | allowed type, unknown length, more than minSize bytes and a working encoder: the closed encoder holds all bytes in order, content-encoding is set, content-length is gone, the status is sent once and the raw body is empty |
| WriterRequests.KnownLengthEncoded | writer.go:61-67 | with a declared length above minSize, encoding starts in WriteHeader and the closed encoder ends up holding every written byte |
| WriterRequests.RefusedTypeVerbatim | writer.go:53-58 | a refused content-type gives a response whose status is forwarded once and whose body is the handler's bytes verbatim |
| WriterRequests.FactoryRefusalRepeatsPrefix | writer.go:78-84 | a factory failure on spill-over writes prefix and chunk, and the deferred flush writes the prefix again |
| WriterRequests.PresetEncodingDropsSmallWrite | writer.go:48-51 | with content-encoding preset, a first small write reports 0, is kept nowhere and flush sends nothing |
| WriterRequests.PresetEncodingSecondWritePanics | writer.go:122 | with content-encoding preset, a second small write panics on the missing buffer |
| WriterRequests.PresetEncodingLargeWriteEncodes | writer.go:48-51 | with content-encoding preset, a first write above minSize reports all bytes written, leaves them in the encoder, appends the negotiated content-encoding to the preset one and sends the status twice, with no raw bytes |
| WriterRequests.SecondWriteHeaderZeroes | writer.go:71-72 | a second WriteHeader while buffering leaves buffLen zero bytes buffered, and flush writes exactly those zeros after the earlier body |
| Writer.MiddlewareWriter.constructor | middleware.go:58-65 | the wrapper starts undecided, with no buffer and no encoder, over the given writer with the given status |
| Writer.MiddlewareWriter.WriteHeader | writer.go:42-73 | the method changes the writer, the underlying writer and the encoder exactly as WriteHeaderS |
| Writer.MiddlewareWriter.Decide | writer.go:53-72 | the type, length and buffering decision changes the state exactly as DecideS |
| Writer.MiddlewareWriter.StartEncoding | writer.go:75-91 | the method changes the state and returns exactly as StartEncodingS |
| Writer.MiddlewareWriter.Write | writer.go:93-125 | the method changes the state and returns exactly as WriteS |
| Writer.MiddlewareWriter.Spill | writer.go:107-121 | the overflow branch changes the state and returns exactly as SpillS |
| Writer.MiddlewareWriter.CopyIn | writer.go:122-124 | the in-place copy into the buffer array changes the state and returns exactly as CopyS |
| Writer.MiddlewareWriter.Flush | writer.go:127-134 | the method changes the state exactly as FlushS |
| Registry.SupportedEncodings | config.go:64-81 | the names are a permutation of the registered names (each exactly once) in non-decreasing priority |
| Registry.Collect | middleware.go:78-81 | the collected array holds one entry per registered name, each with that name's encoder |
| Registry.NamesOf | middleware.go:85-88 | the names appended are those of the entries, in order |
| Registry.SelectionStep | middleware.go:82-84 | swapping a least entry of the unsorted part to the front of it extends the sorted prefix by one |
| Registry.SortByPriority | middleware.go:82-84 | the in-place sort leaves the entries ordered by priority and a permutation of what they were |
| Registry.LeastFrom | middleware.go:82-84 | the index found holds a smallest priority of the unsorted suffix |
| Registry.NamesAppend | middleware.go:86-88 | the names of two concatenated entry lists are the concatenated names |
| Registry.NamesRespectPermutation | middleware.go:85-88 | permuting the entries permutes their names |
| Registry.SupportedOrderUnique | middleware.go:72-89 | with distinct priorities, there is only one list that is a permutation of the registered names in non-decreasing priority |
| Registry.TailIsSupportedOrder | middleware.go:82-84 | dropping the first name of a supported order gives a supported order of the remaining encoders |
| Registry.HeadsAgree | middleware.go:82-84 | with distinct priorities, any two supported orders start with the same name |
| Options.Applied | option.go:13-47 | WithEncoder sets encoders[name] to its priority and factory, overwriting; WihtoutEncoder removes name; every other key keeps its entry; WithAllowedTypes, WithMinSize and WithErrorHandler each change only their own field, and every option other than WithEncoder and WihtoutEncoder leaves the encoder map exactly as it was |
| Options.WithGzipOnlyGzip | option.go:25-29 | WithGzip registers "gzip" with the given priority and a gzip factory of the given level, and touches nothing else |
| Options.WithGzip | option.go:25-29 | WithGzip is an encoder option for the name gzip at the given priority with a gzip factory of the given level |
| Options.ApplyAllOrigins | config.go:49-51 | after a run of options every encoder name was registered at the start or by one of the options, and the allow-list, minSize and error handler are the starting ones or were set by one of the options |
| Options.RemovingAbsentIsNoop | option.go:19-23 | removing a name that is not registered changes nothing |
| Options.ApplyAllAppend | config.go:49-51 | running two option lists in turn is running their concatenation |
| Options.KeepsMinSize | option.go:37-41 | options other than WithMinSize leave minSize alone |
| Options.LastMinSizeWins | config.go:48-51 | a later WithMinSize overrides every earlier one |
| Options.LastRemovalWins | config.go:48-51 | a final WihtoutEncoder removes the name whatever registered it before, the gzip default included |
| Configuration.Defaults | config.go:42-47 | the starting configuration has no encoders, the default allow-list, minSize 4096 and the default error handler |
| Configuration.Registered | config.go:48-51 | gzip at priority 100 with default compression runs first, then the caller's options in order |
| Configuration.Config.constructor | config.go:42-47 | the literal has the default settings and no supported encodings yet |
| Configuration.Config.Apply | option.go:13-47 | running an option changes the configuration exactly as Applied says |
| Configuration.Config.PopulateSupportedEncoding | config.go:64-81 | supportedEncoding becomes a supported order of the registered encoders, and nothing else changes |
| Configuration.Config.NewBuffer | config.go:56-58 | the pool's constructor yields a zeroed buffer of exactly minSize bytes |
| Configuration.NewConfig | config.go:41-62 | the settings are the defaults after gzip and then the options, in order; supportedEncoding is a supported order of the result |
| Configuration.PoolBuffer | config.go:54-58 | a pool buffer has the minSize in effect after every option has run |
| Configuration.ExampleEncoders | config_test.go:13 | a/1, b/2, c/3 with gzip removed registers exactly a, b and c |
| Configuration.ExampleOrder | config_test.go:13-14 | ["a","b","c"] is a supported order of those encoders, whose priorities are distinct |
| Configuration.ExampleSupportedEncoding | config_test.go:13-14 | every supported order of that configuration is ["a","b","c"] |
| Configuration.PopulateExample | config_test.go:11-15 | newConfig with those options yields supportedEncoding ["a","b","c"] |
| Compress.MiddlewareExample | middleware_test.go:12-16 | newMiddleware with the same options yields supportedEncoding ["a","b","c"] |
| Compress.Act | middleware.go:54 | one handler action on the unwrapped writer adds its status or its bytes and nothing else to the body and statuses |
| Compress.Direct | middleware.go:53-55 | a handler called with the original writer sends exactly its own statuses and bytes, in order |
| Compress.Step | middleware.go:68 | one handler action on the wrapper keeps the writer invariant |
| Compress.Run | middleware.go:68 | the wrapped handler, up to its first panic, keeps the writer invariant |
| Compress.Middleware.constructor | middleware.go:41 | the literal has no encoders, the default allow-list and minSize 4096 |
| Compress.Middleware.Apply | middleware.go:43-45 | running an option changes encoders, allowedType and minSize exactly as Applied says |
| Compress.Middleware.PopulateSupportedEncoding | middleware.go:72-89 | supportedEncoding becomes a supported order of the registered encoders, and nothing else changes |
| Compress.Middleware.ServeHTTP | middleware.go:50-70 | unregistered encoding: the handler runs on the original writer and no wrapper or encoder exists; otherwise: the handler runs on a wrapper holding status 200, stops at a panic, and flush always runs; the outcome is exactly Served |
| Compress.Served | middleware.go:50-70 | an unregistered encoding gives no encoder, no panic, and exactly the handler's statuses and bytes after the original ones; any encoder in the outcome belongs to a registered encoding and has been closed by flush |
| Compress.HandleDirect | middleware.go:54 | the handler on the original writer changes it exactly as Direct |
| Compress.HandleWrapped | middleware.go:68 | the handler on the wrapper changes it exactly as Run, stopping at the first panic |
| Compress.Perform | middleware.go:68 | one handler action on the wrapper changes it exactly as Step |
| Compress.NewMiddleware | middleware.go:40-48 | the middleware holds the defaults after gzip and then the options, in order; supportedEncoding is a supported order |
| ServeProps.RunWrites | middleware.go:68 | a write-only handler does to the wrapper what its writes do, one after another |
| ServeProps.ServedWrites | middleware.go:58-68 | for a registered encoding, a write-only handler's response is the writes on a wrapper flushed at the end |
| ServeProps.ServedSmallBody | middleware.go:58-68 | registered encoding, allowed type, unknown length, at most minSize bytes: the client gets the bytes verbatim and no encoder exists |
| ServeProps.ServedLargeBody | middleware.go:58-68 | registered encoding, allowed type, unknown length, more than minSize bytes and a working encoder: the closed encoder holds every byte in order, content-encoding names the encoding, 200 is sent once, no raw byte leaks |
| ServeProps.ServedSetFirst | middleware.go:68 | a header set before anything else acts as if the request arrived with it |
| ServeProps.DeclaredTextIsLarge | writer.go:53-64 | text/plain with content-length 100000 allows encoding and is above a minSize of 4096 |
| ServeProps.KnownLengthHeader | writer_test.go:44-50 | WriteHeader(400) with text/plain and length 100000 sets shouldEncode, not dontEncode, and keeps status 400 |
| ServeProps.KnownLengthScenario | writer.go:61-67 | text/plain, length 100000, minSize 4096: content-encoding gzip, no content-length, 200 once, and the encoder receives every written byte |
| ServeProps.TwoWritesScenario | writer.go:107-118 | text/plain, minSize 15, two writes of 10 bytes: encoded, and the encoder receives the 20 bytes in order |
| ServeProps.OneWriteScenario | writer.go:122-124 | text/plain, minSize 15, one write of 10 bytes: no content-encoding, the 10 bytes verbatim, no status sent |
| ServeProps.PresetEncodingScenario | writer.go:48-51 | content-encoding br set by the handler, then one small write: the status is forwarded and the bytes never reach the client |

## Left out

- WriterSpec.StartEncodingS: a factory that fails but still returns a non-nil encoder value is not modelled. `gzip.NewWriterLevel` does this for an invalid level (`WithGzip(p, 42)`): `startEncoding` then calls `flush`, whose `Close` on that nil writer panics, and the deferred `flush` panics again. The model treats every failure as a plain refusal with no encoder (`Refuses`), so such a misconfigured gzip level is not captured.
- Locking (`sync.Mutex` in the writer) is dropped; the model is single-threaded, one writer per request.
- Logging on factory failure (`fmt.Printf`, the `silent` field) is not modelled: it is output only.
- `DefaultErrorHandler`'s `http.Error` response is not modelled. The configuration stores which handler was configured, as a name.
- The regular-expression engine is replaced by the forms the default patterns use: anchored prefix, anchored suffix, and an alternation of them. A caller's arbitrary regular expressions are not modelled.
- Content negotiation is an input. `ServeHTTP` takes the negotiated name as a parameter; the negotiation algorithm is not modelled.
- The gzip algorithm and gzip factory are not modelled. The encoder only records the bytes it receives and whether it is closed. What calling a factory does (refuse, or build an encoder whose writes all succeed or all fail) is a parameter (`Encoders.Behaviour`), and the registry stores only which factory was registered. A factory that returns a nil encoder with no error is not modelled.
- The `puddle` buffer pool's leasing, capacity (100000) and concurrency are not modelled; only its constructor's buffer size is stated (`Configuration.Config.NewBuffer`). The writer allocates its own buffer, as writer.go does.
- Http.ResponseWriter: the underlying writer never fails. Repeated WriteHeader calls are all recorded rather than ignored after the first, so that the model can show how many statuses the writer sends.
- Header names are kept in one canonical spelling; Go's case-insensitive header canonicalisation is not modelled.
- `Registry.SortByPriority`: `sort.Slice`'s own algorithm is replaced by a selection sort with the same promise (sorted by priority, a permutation); the order of equal priorities is left unspecified, as in Go.
- `minSize` is an unbounded natural number rather than a `uint64`. `buffLen + len(chunk)` therefore cannot wrap around in the model.
- The request's context, which is passed to the factory, is not modelled.
- Compress.Middleware.Apply: the middleware has no error-handler field, so `WithErrorHandler` is modelled as having no effect on it. middleware.go applies the config options to a middleware value, whose fields (and `silent` instead of an error handler) differ from the configuration's.
- A handler is a script of header edits, WriteHeader calls and writes. A handler's own panics apart from those raised by the writer, and its reading of return values, are not modelled.
- The test files' `responseWriter` type with a `c` field is a different version of the writer; only what writer.go guarantees is stated. For example, its expectation that a preset content-encoding sets `dontEncode` is not modelled, because writer.go does not do that.
