/**
 * option.go: each option is a closure that updates a configuration in place.
 * Here an option is the value naming that closure and its arguments, and
 * Applied says what running it does to the configuration's fields.
 */
module Options {
  import opened Patterns
  import opened Registry

  /** The configured error handler: DefaultErrorHandler (a 500 response with the error text) or the caller's own. */
  datatype ErrorHandler = DefaultErrorHandler | CustomErrorHandler(name: string)

  datatype Option =
    | WithEncoder(encoding: string, priority: int, factory: Factory)
    | WihtoutEncoder(encoding: string)
    | WithAllowedTypes(list: seq<Pattern>)
    | WithMinSize(minSize: nat)
    | WithErrorHandler(handler: ErrorHandler)

  /** gzip.DefaultCompression. */
  const DefaultCompression: int := -1

  /** WithGzip is WithEncoder under the name "gzip", with a gzip factory at `level`. */
  function WithGzip(priority: int, level: int): (r: Option)
    ensures r.WithEncoder? && r.encoding == "gzip" && r.priority == priority && r.factory == Gzip(level)
  {
    WithEncoder("gzip", priority, Gzip(level))
  }

  /** The fields of a configuration that options touch. */
  datatype Settings = Settings(
    encoders: map<string, Encoder>,
    allowedType: seq<Pattern>,
    minSize: nat,
    errorHandler: ErrorHandler)

  /** What running option `o` on a configuration does. */
  function Applied(s: Settings, o: Option): (r: Settings)
    ensures o.WithEncoder? ==>
      && r.encoders.Keys == s.encoders.Keys + {o.encoding}
      && r.encoders[o.encoding] == Encoder(o.priority, o.factory)
    ensures o.WihtoutEncoder? ==> r.encoders.Keys == s.encoders.Keys - {o.encoding}
    ensures forall k :: k in s.encoders && (o.WithEncoder? || o.WihtoutEncoder? ==> k != o.encoding) ==>
      k in r.encoders && r.encoders[k] == s.encoders[k]
    ensures !(o.WithEncoder? || o.WihtoutEncoder?) ==> r.encoders == s.encoders
    ensures r.allowedType == if o.WithAllowedTypes? then o.list else s.allowedType
    ensures r.minSize == if o.WithMinSize? then o.minSize else s.minSize
    ensures r.errorHandler == if o.WithErrorHandler? then o.handler else s.errorHandler
  {
    match o
    case WithEncoder(name, p, f) => s.(encoders := s.encoders[name := Encoder(p, f)])
    case WihtoutEncoder(name) => s.(encoders := s.encoders - {name})
    case WithAllowedTypes(list) => s.(allowedType := list)
    case WithMinSize(n) => s.(minSize := n)
    case WithErrorHandler(h) => s.(errorHandler := h)
  }

  /** Options run one after another, in the order given. */
  function ApplyAll(s: Settings, opts: seq<Option>): Settings
    decreases |opts|
  {
    if opts == [] then s else ApplyAll(Applied(s, opts[0]), opts[1..])
  }

  /** Every encoder, allow-list, minimum size and error handler after a run of options was there
      at the start or was put there by one of the options. */
  lemma {:induction false} ApplyAllOrigins(s: Settings, opts: seq<Option>)
    ensures var r := ApplyAll(s, opts);
      && (forall k :: k in r.encoders ==>
            k in s.encoders || exists i :: 0 <= i < |opts| && opts[i].WithEncoder? && opts[i].encoding == k)
      && (r.allowedType == s.allowedType || exists i :: 0 <= i < |opts| && opts[i] == WithAllowedTypes(r.allowedType))
      && (r.minSize == s.minSize || exists i :: 0 <= i < |opts| && opts[i] == WithMinSize(r.minSize))
      && (r.errorHandler == s.errorHandler || exists i :: 0 <= i < |opts| && opts[i] == WithErrorHandler(r.errorHandler))
    decreases |opts|
  {
    if opts != [] {
      ApplyAllOrigins(Applied(s, opts[0]), opts[1..]);
      assert forall i :: 0 <= i < |opts| - 1 ==> opts[1..][i] == opts[i + 1];
    }
  }

  /** WithGzip registers "gzip" and changes nothing else. */
  lemma WithGzipOnlyGzip(s: Settings, priority: int, level: int)
    ensures Applied(s, WithGzip(priority, level)) == s.(encoders := s.encoders["gzip" := Encoder(priority, Gzip(level))])
    ensures forall k :: k in s.encoders && k != "gzip" ==> Applied(s, WithGzip(priority, level)).encoders[k] == s.encoders[k]
  {
  }

  /** Removing a name that is not registered changes nothing. */
  lemma RemovingAbsentIsNoop(s: Settings, name: string)
    requires name !in s.encoders
    ensures Applied(s, WihtoutEncoder(name)) == s
  {
    assert s.encoders - {name} == s.encoders;
  }

  /** Running two lists of options is running their concatenation. */
  lemma {:induction false} ApplyAllAppend(s: Settings, xs: seq<Option>, ys: seq<Option>)
    ensures ApplyAll(s, xs + ys) == ApplyAll(ApplyAll(s, xs), ys)
    decreases |xs|
  {
    if xs == [] {
      assert xs + ys == ys;
    } else {
      assert (xs + ys)[0] == xs[0];
      assert (xs + ys)[1..] == xs[1..] + ys;
      ApplyAllAppend(Applied(s, xs[0]), xs[1..], ys);
    }
  }

  /** Options other than WithMinSize leave minSize alone. */
  lemma {:induction false} KeepsMinSize(s: Settings, opts: seq<Option>)
    requires forall i :: 0 <= i < |opts| ==> !opts[i].WithMinSize?
    ensures ApplyAll(s, opts).minSize == s.minSize
    decreases |opts|
  {
    if opts != [] {
      KeepsMinSize(Applied(s, opts[0]), opts[1..]);
    }
  }

  /** A later WithMinSize overrides every earlier one. */
  lemma LastMinSizeWins(s: Settings, xs: seq<Option>, n: nat, ys: seq<Option>)
    requires forall i :: 0 <= i < |ys| ==> !ys[i].WithMinSize?
    ensures ApplyAll(s, xs + [WithMinSize(n)] + ys).minSize == n
  {
    ApplyAllAppend(s, xs + [WithMinSize(n)], ys);
    ApplyAllAppend(s, xs, [WithMinSize(n)]);
    KeepsMinSize(ApplyAll(s, xs + [WithMinSize(n)]), ys);
  }

  /** A final WihtoutEncoder removes the name whatever registered it before (the gzip default included). */
  lemma LastRemovalWins(s: Settings, xs: seq<Option>, name: string)
    ensures name !in ApplyAll(s, xs + [WihtoutEncoder(name)]).encoders
  {
    ApplyAllAppend(s, xs, [WihtoutEncoder(name)]);
  }
}
