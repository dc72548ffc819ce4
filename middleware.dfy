/**
 * middleware.go: the handler wrapper. newMiddleware builds the encoder
 * registry from the options; ServeHTTP wraps the response writer in a
 * buffering writer when the request negotiated a registered encoding, runs
 * the wrapped handler and always flushes afterwards.
 *
 * The wrapped handler is a script of actions: header edits, WriteHeader and
 * Write calls. A panic raised by a write ends the script; the deferred flush
 * still runs and the panic is reported to the caller.
 */
module Compress {
  import opened Base
  import opened Http
  import opened Patterns
  import opened Encoders
  import opened Registry
  import opened Options
  import opened Configuration
  import opened WriterSpec
  import Writer

  /** One thing the wrapped handler does to the writer it is given. */
  datatype Action =
    | HeaderSet(key: string, value: string)
    | HeaderDel(key: string)
    | CallWriteHeader(status: int)
    | CallWrite(chunk: seq<byte>)

  /** What a request's response ends up as: the underlying writer, the encoder if one was made,
      and whether the handler panicked. */
  datatype Outcome = Outcome(out: Sink, enc: Base.Option<EncoderState>, panicked: bool)

  /** The chunks a script writes, in order. */
  function Chunks(handler: seq<Action>): seq<seq<byte>>
    decreases |handler|
  {
    if handler == [] then []
    else (if handler[0].CallWrite? then [handler[0].chunk] else []) + Chunks(handler[1..])
  }

  /** The statuses a script sends, in order. */
  function Statuses(handler: seq<Action>): seq<int>
    decreases |handler|
  {
    if handler == [] then []
    else (if handler[0].CallWriteHeader? then [handler[0].status] else []) + Statuses(handler[1..])
  }

  /** A script that only writes the given chunks. */
  function Writes(chunks: seq<seq<byte>>): (r: seq<Action>)
    ensures |r| == |chunks| && forall i :: 0 <= i < |r| ==> r[i] == CallWrite(chunks[i])
  {
    seq(|chunks|, i requires 0 <= i < |chunks| => CallWrite(chunks[i]))
  }

  /** One action on the unwrapped writer. */
  function Act(out: Sink, a: Action): (r: Sink)
    ensures r.statuses == out.statuses + (if a.CallWriteHeader? then [a.status] else [])
    ensures r.body == out.body + (if a.CallWrite? then a.chunk else [])
  {
    match a
    case HeaderSet(k, v) => out.(header := Set(out.header, k, v))
    case HeaderDel(k) => out.(header := Del(out.header, k))
    case CallWriteHeader(st) => Forward(out, st)
    case CallWrite(x) => Emit(out, x)
  }

  /** The script run on the unwrapped writer: every status and every byte goes straight through. */
  function Direct(out: Sink, handler: seq<Action>): (r: Sink)
    ensures r.statuses == out.statuses + Statuses(handler)
    ensures r.body == out.body + Concat(Chunks(handler))
    decreases |handler|
  {
    if handler == [] then out
    else
      var r := Direct(Act(out, handler[0]), handler[1..]);
      DirectStep(out, handler, r);
      r
  }

  /** The recursive case of Direct's contract. */
  lemma DirectStep(out: Sink, handler: seq<Action>, r: Sink)
    requires handler != []
    requires r.statuses == Act(out, handler[0]).statuses + Statuses(handler[1..])
    requires r.body == Act(out, handler[0]).body + Concat(Chunks(handler[1..]))
    ensures r.statuses == out.statuses + Statuses(handler)
    ensures r.body == out.body + Concat(Chunks(handler))
  {
    var a := handler[0];
    var next := Act(out, a);
    ChunksStep(handler);
    StatusesStep(handler);
    if a.CallWrite? {
      ConcatCons(a.chunk, Chunks(handler[1..]));
      Associative(out.body, a.chunk, Concat(Chunks(handler[1..])));
    }
    if a.CallWriteHeader? {
      Associative(out.statuses, [a.status], Statuses(handler[1..]));
    }
  }

  lemma ChunksStep(handler: seq<Action>)
    requires handler != []
    ensures handler[0].CallWrite? ==> Chunks(handler) == [handler[0].chunk] + Chunks(handler[1..])
    ensures !handler[0].CallWrite? ==> Chunks(handler) == Chunks(handler[1..])
  {
    assert [] + Chunks(handler[1..]) == Chunks(handler[1..]);
  }

  lemma StatusesStep(handler: seq<Action>)
    requires handler != []
    ensures handler[0].CallWriteHeader? ==> Statuses(handler) == [handler[0].status] + Statuses(handler[1..])
    ensures !handler[0].CallWriteHeader? ==> Statuses(handler) == Statuses(handler[1..])
  {
    assert [] + Statuses(handler[1..]) == Statuses(handler[1..]);
  }

  lemma Associative<T>(x: seq<T>, y: seq<T>, z: seq<T>)
    ensures x + y + z == x + (y + z)
  {
  }

  lemma ConcatCons(x: seq<byte>, rest: seq<seq<byte>>)
    ensures Concat([x] + rest) == x + Concat(rest)
  {
    assert ([x] + rest)[0] == x;
    assert ([x] + rest)[1..] == rest;
  }

  /** One action on the wrapped writer; true when it panicked. Header edits go to the underlying
      writer's header, which the wrapper shares. */
  function Step(c: Conf, s: State, a: Action): (r: (State, bool))
    requires Inv(c, s)
    ensures Inv(c, r.0)
  {
    match a
    case HeaderSet(k, v) => (s.(out := s.out.(header := Set(s.out.header, k, v))), false)
    case HeaderDel(k) => (s.(out := s.out.(header := Del(s.out.header, k))), false)
    case CallWriteHeader(st) => (WriteHeaderS(c, s, st), false)
    case CallWrite(x) => var (t, res) := WriteS(c, s, x); (t, res.Panic?)
  }

  /** The script on the wrapped writer, up to the first panic. */
  function Run(c: Conf, s: State, handler: seq<Action>): (r: (State, bool))
    requires Inv(c, s)
    ensures Inv(c, r.0)
    decreases |handler|
  {
    if handler == [] then (s, false)
    else
      var (t, p) := Step(c, s, handler[0]);
      if p then (t, true) else Run(c, t, handler[1..])
  }

  /** What ServeHTTP does for a request that negotiated `negotiated`, when calling the encoding's
      factory behaves as `call`: the script runs unwrapped when the encoding is not registered;
      otherwise it runs on a fresh wrapper holding status 200, and the wrapper is flushed. */
  function Served(encoders: map<string, Encoder>, allowedType: seq<Pattern>, minSize: nat,
                  negotiated: string, call: Behaviour, out: Sink, handler: seq<Action>): (r: Outcome)
    ensures negotiated !in encoders ==>
      && r.enc.None? && !r.panicked
      && r.out.statuses == out.statuses + Statuses(handler)
      && r.out.body == out.body + Concat(Chunks(handler))
    ensures r.enc.Some? ==> negotiated in encoders && r.enc.value.closed
  {
    if negotiated !in encoders then Outcome(Direct(out, handler), None, false)
    else
      var c := Conf(minSize, allowedType, call, negotiated);
      var (t, p) := Run(c, Initial(out, 200), handler);
      var f := FlushS(c, t);
      Outcome(f.out, f.enc, p)
  }

  /** The underlying writer as a value. */
  function Out(w: ResponseWriter): Sink
    reads w
  {
    Sink(w.header, w.statuses, w.body)
  }

  class Middleware {
    var supportedEncoding: seq<string>
    var encoders: map<string, Encoder>
    var allowedType: seq<Pattern>
    var minSize: nat

    /** The struct literal of newMiddleware. */
    constructor ()
      ensures encoders == Defaults().encoders && allowedType == Defaults().allowedType
      ensures minSize == Defaults().minSize && supportedEncoding == []
    {
      supportedEncoding := [];
      encoders, allowedType, minSize := map[], DefaultAllowedTypes(), 4 * 1024;
    }

    /** Running an option on the middleware's fields; it has no error handler, so WithErrorHandler
        changes nothing. */
    method Apply(o: Options.Option)
      modifies this
      ensures encoders == Applied(old(Fields()), o).encoders
      ensures allowedType == Applied(old(Fields()), o).allowedType
      ensures minSize == Applied(old(Fields()), o).minSize
      ensures supportedEncoding == old(supportedEncoding)
    {
      match o
      case WithEncoder(name, p, f) => encoders := encoders[name := Encoder(p, f)];
      case WihtoutEncoder(name) => encoders := encoders - {name};
      case WithAllowedTypes(list) => allowedType := list;
      case WithMinSize(n) => minSize := n;
      case WithErrorHandler(_) =>
    }

    /** The middleware's fields in the shape options act on, with the default error handler. */
    function Fields(): Settings
      reads this
    {
      Options.Settings(encoders, allowedType, minSize, DefaultErrorHandler)
    }

    /** The registered names, ordered by ascending priority (shared with the configuration). */
    method PopulateSupportedEncoding()
      modifies this
      ensures IsSupportedOrder(supportedEncoding, encoders)
      ensures encoders == old(encoders) && allowedType == old(allowedType) && minSize == old(minSize)
    {
      supportedEncoding := SupportedEncodings(encoders);
    }

    /** ServeHTTP for a request that negotiated `negotiated`; `call` is what calling that
        encoding's factory does. Returns the encoder the wrapper made, if any, and whether the
        handler panicked. */
    method ServeHTTP(w: ResponseWriter, negotiated: string, call: Behaviour, handler: seq<Action>)
      returns (enc: StreamEncoder?, panicked: bool)
      modifies w
      ensures var r := Served(encoders, allowedType, minSize, negotiated, call, old(Out(w)), handler);
        && Out(w) == r.out && panicked == r.panicked
        && (enc == null <==> r.enc.None?)
        && (enc != null ==> r.enc == Some(EncoderState(enc.received, enc.closed, enc.failing)))
    {
      if negotiated !in encoders {
        HandleDirect(w, handler);
        return null, false;
      }
      var mw := new Writer.MiddlewareWriter(w, minSize, allowedType, call, negotiated, 200);
      panicked := HandleWrapped(mw, handler);
      mw.Flush();
      enc := mw.enc;
    }
  }

  /** The handler given the response writer itself. */
  method HandleDirect(w: ResponseWriter, handler: seq<Action>)
    modifies w
    ensures Out(w) == Direct(old(Out(w)), handler)
  {
    var i := 0;
    while i < |handler|
      invariant 0 <= i <= |handler|
      invariant Direct(Out(w), handler[i..]) == Direct(old(Out(w)), handler)
    {
      assert handler[i..][1..] == handler[i + 1..];
      match handler[i] {
        case HeaderSet(k, v) => w.SetHeader(k, v);
        case HeaderDel(k) => w.DelHeader(k);
        case CallWriteHeader(st) => w.WriteHeader(st);
        case CallWrite(x) => var _ := w.Write(x);
      }
      i := i + 1;
    }
  }

  /** The handler given the wrapper; it stops at the first panic. */
  method HandleWrapped(mw: Writer.MiddlewareWriter, handler: seq<Action>) returns (panicked: bool)
    requires mw.Valid()
    modifies mw, mw.rw, mw.enc, mw.buff
    ensures mw.Valid() && (mw.Abs(), panicked) == Run(mw.Settings(), old(mw.Abs()), handler)
    ensures mw.enc == old(mw.enc) || mw.enc == null || fresh(mw.enc)
    ensures mw.buff == old(mw.buff) || mw.buff == null || fresh(mw.buff)
  {
    panicked := false;
    var i := 0;
    while i < |handler| && !panicked
      invariant 0 <= i <= |handler|
      invariant mw.Valid()
      invariant mw.enc == old(mw.enc) || mw.enc == null || fresh(mw.enc)
      invariant mw.buff == old(mw.buff) || mw.buff == null || fresh(mw.buff)
      invariant Run(mw.Settings(), old(mw.Abs()), handler)
             == if panicked then (mw.Abs(), true) else Run(mw.Settings(), mw.Abs(), handler[i..])
      decreases |handler| - i
    {
      assert handler[i..][1..] == handler[i + 1..];
      panicked := Perform(mw, handler[i]);
      i := i + 1;
    }
  }

  /** One action of the handler on the wrapper. */
  method Perform(mw: Writer.MiddlewareWriter, a: Action) returns (panicked: bool)
    requires mw.Valid()
    modifies mw, mw.rw, mw.enc, mw.buff
    ensures mw.Valid() && (mw.Abs(), panicked) == Step(mw.Settings(), old(mw.Abs()), a)
    ensures mw.enc == old(mw.enc) || mw.enc == null || fresh(mw.enc)
    ensures mw.buff == old(mw.buff) || mw.buff == null || fresh(mw.buff)
  {
    panicked := false;
    match a {
      case HeaderSet(k, v) => mw.rw.SetHeader(k, v);
      case HeaderDel(k) => mw.rw.DelHeader(k);
      case CallWriteHeader(st) => mw.WriteHeader(st);
      case CallWrite(x) =>
        var r := mw.Write(x);
        panicked := r.Panic?;
    }
  }

  /** newMiddleware: gzip registered first, then the options in order, then the supported order. */
  method NewMiddleware(options: seq<Options.Option>) returns (m: Middleware)
    ensures fresh(m)
    ensures m.encoders == ApplyAll(Defaults(), Registered(options)).encoders
    ensures m.allowedType == ApplyAll(Defaults(), Registered(options)).allowedType
    ensures m.minSize == ApplyAll(Defaults(), Registered(options)).minSize
    ensures IsSupportedOrder(m.supportedEncoding, m.encoders)
  {
    m := new Middleware();
    m.Apply(WithGzip(100, DefaultCompression));
    for i := 0 to |options|
      invariant m.encoders == ApplyAll(Defaults(), Registered(options[..i])).encoders
      invariant m.allowedType == ApplyAll(Defaults(), Registered(options[..i])).allowedType
      invariant m.minSize == ApplyAll(Defaults(), Registered(options[..i])).minSize
    {
      ApplyAllAppend(Defaults(), Registered(options[..i]), [options[i]]);
      assert Registered(options[..i]) + [options[i]] == Registered(options[..i + 1]);
      m.Apply(options[i]);
    }
    assert options[..|options|] == options;
    m.PopulateSupportedEncoding();
  }

  /** newMiddleware with the test's options yields the supported encodings ["a", "b", "c"]. */
  method MiddlewareExample(f: Factory) returns (m: Middleware)
    ensures m.supportedEncoding == ["a", "b", "c"]
  {
    m := NewMiddleware(ExampleOptions(f));
    ExampleSupportedEncoding(f, m.supportedEncoding);
  }
}
