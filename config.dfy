/**
 * config.go: the configuration newConfig builds. It starts from the defaults,
 * registers gzip, runs the caller's options in order, then computes the
 * supported encodings in priority order.
 */
module Configuration {
  import Base
  import opened Patterns
  import opened Registry
  import opened Options

  /** The struct literal newConfig starts from: no encoders, the default allow-list, 4 KiB, the default error handler. */
  function Defaults(): (r: Settings)
    ensures r.encoders == map[] && r.minSize == 4 * 1024 && r.errorHandler == DefaultErrorHandler
    ensures r.allowedType == DefaultAllowedTypes()
  {
    Settings(map[], DefaultAllowedTypes(), 4 * 1024, DefaultErrorHandler)
  }

  /** The options newConfig runs: gzip at priority 100 and default compression, then the caller's. */
  function Registered(options: seq<Option>): (r: seq<Option>)
    ensures |r| == |options| + 1 && r[0] == WithGzip(100, DefaultCompression) && r[1..] == options
  {
    [WithGzip(100, DefaultCompression)] + options
  }

  class Config {
    var supportedEncoding: seq<string>
    var encoders: map<string, Encoder>
    var allowedType: seq<Pattern>
    var minSize: nat
    var errorHandler: ErrorHandler

    /** The fields options act on. */
    function Settings(): Settings
      reads this
    {
      Options.Settings(encoders, allowedType, minSize, errorHandler)
    }

    /** The struct literal of newConfig. */
    constructor ()
      ensures Settings() == Defaults() && supportedEncoding == []
    {
      supportedEncoding := [];
      encoders, allowedType, minSize, errorHandler := map[], DefaultAllowedTypes(), 4 * 1024, DefaultErrorHandler;
    }

    /** Running the option closure `o` on this configuration. */
    method Apply(o: Option)
      modifies this
      ensures Settings() == Applied(old(Settings()), o)
      ensures supportedEncoding == old(supportedEncoding)
    {
      match o
      case WithEncoder(name, p, f) => encoders := encoders[name := Encoder(p, f)];
      case WihtoutEncoder(name) => encoders := encoders - {name};
      case WithAllowedTypes(list) => allowedType := list;
      case WithMinSize(n) => minSize := n;
      case WithErrorHandler(h) => errorHandler := h;
    }

    /** The registered names, ordered by ascending priority. */
    method PopulateSupportedEncoding()
      modifies this
      ensures IsSupportedOrder(supportedEncoding, encoders)
      ensures Settings() == old(Settings())
    {
      supportedEncoding := SupportedEncodings(encoders);
    }

    /** The constructor of the buffer pool: a zeroed buffer of minSize bytes. */
    method NewBuffer() returns (b: array<Base.byte>)
      ensures b.Length == minSize
      ensures forall i :: 0 <= i < b.Length ==> b[i] == 0
      ensures fresh(b)
    {
      b := new Base.byte[minSize](_ => 0);
    }
  }

  /** newConfig: the options run in order after the gzip default, and the supported encodings follow. */
  method NewConfig(options: seq<Option>) returns (c: Config)
    ensures fresh(c)
    ensures c.Settings() == ApplyAll(Defaults(), Registered(options))
    ensures IsSupportedOrder(c.supportedEncoding, c.encoders)
  {
    c := new Config();
    c.Apply(WithGzip(100, DefaultCompression));
    for i := 0 to |options|
      invariant c.Settings() == ApplyAll(Defaults(), Registered(options[..i]))
    {
      ApplyAllAppend(Defaults(), Registered(options[..i]), [options[i]]);
      assert Registered(options[..i]) + [options[i]] == Registered(options[..i + 1]);
      c.Apply(options[i]);
    }
    assert options[..|options|] == options;
    c.PopulateSupportedEncoding();
  }

  /** The options of the configuration test: a, b and c at priorities 1, 2 and 3, and gzip removed. */
  function ExampleOptions(f: Factory): seq<Option>
  {
    [WithEncoder("a", 1, f), WithEncoder("b", 2, f), WithEncoder("c", 3, f), WihtoutEncoder("gzip")]
  }

  /** With those options exactly a, b and c are registered. */
  lemma ExampleEncoders(f: Factory)
    ensures ApplyAll(Defaults(), Registered(ExampleOptions(f))).encoders
         == map["a" := Encoder(1, f), "b" := Encoder(2, f), "c" := Encoder(3, f)]
  {
    var opts := Registered(ExampleOptions(f));
    var s1 := Applied(Defaults(), opts[0]);
    assert s1.encoders == map["gzip" := Encoder(100, Gzip(DefaultCompression))];
    var s2 := Applied(s1, opts[1]);
    var s3 := Applied(s2, opts[2]);
    var s4 := Applied(s3, opts[3]);
    var s5 := Applied(s4, opts[4]);
    assert s5.encoders == map["a" := Encoder(1, f), "b" := Encoder(2, f), "c" := Encoder(3, f)];
    assert ApplyAll(s5, opts[5..]) == s5;
    assert ApplyAll(s4, opts[4..]) == ApplyAll(s5, opts[5..]);
    assert ApplyAll(s3, opts[3..]) == ApplyAll(s4, opts[4..]);
    assert ApplyAll(s2, opts[2..]) == ApplyAll(s3, opts[3..]);
    assert ApplyAll(s1, opts[1..]) == ApplyAll(s2, opts[2..]);
  }

  /** ["a", "b", "c"] is a supported order of the test's encoders, whose priorities are distinct. */
  lemma ExampleOrder(f: Factory)
    ensures IsSupportedOrder(["a", "b", "c"], map["a" := Encoder(1, f), "b" := Encoder(2, f), "c" := Encoder(3, f)])
    ensures DistinctPriorities(map["a" := Encoder(1, f), "b" := Encoder(2, f), "c" := Encoder(3, f)])
  {
    var expected := map["a" := Encoder(1, f), "b" := Encoder(2, f), "c" := Encoder(3, f)];
    var names: seq<string> := ["a", "b", "c"];
    assert expected.Keys == {"a", "b", "c"};
    assert multiset(names) == multiset{"a", "b", "c"};
    assert multiset(expected.Keys) == multiset{"a", "b", "c"};
    forall i, j | 0 <= i < j < |names|
      ensures expected[names[i]].priority <= expected[names[j]].priority
    {
      assert expected[names[i]].priority == i + 1;
      assert expected[names[j]].priority == j + 1;
    }
  }

  /** Every supported order of the test's configuration is ["a", "b", "c"]. */
  lemma ExampleSupportedEncoding(f: Factory, names: seq<string>)
    requires IsSupportedOrder(names, ApplyAll(Defaults(), Registered(ExampleOptions(f))).encoders)
    ensures names == ["a", "b", "c"]
  {
    ExampleEncoders(f);
    ExampleOrder(f);
    SupportedOrderUnique(names, ["a", "b", "c"], map["a" := Encoder(1, f), "b" := Encoder(2, f), "c" := Encoder(3, f)]);
  }

  /** newConfig with the test's options yields the supported encodings ["a", "b", "c"]. */
  method PopulateExample(f: Factory) returns (c: Config)
    ensures c.supportedEncoding == ["a", "b", "c"]
  {
    c := NewConfig(ExampleOptions(f));
    ExampleSupportedEncoding(f, c.supportedEncoding);
  }

  /** The pool's buffers use the minSize in effect once every option has run. */
  method PoolBuffer(options: seq<Option>) returns (b: array<Base.byte>)
    ensures b.Length == ApplyAll(Defaults(), Registered(options)).minSize
  {
    var c := NewConfig(options);
    b := c.NewBuffer();
  }
}
