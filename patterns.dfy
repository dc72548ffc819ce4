/**
 * The content-type allow-list. Go compiles each entry as a regular
 * expression; the model keeps the forms the defaults use: a pattern anchored
 * at the start (`^text/`), one anchored at the end (`\+xml$`), and an
 * alternation of two patterns (`\+(xml|json)$`).
 */
module Patterns {

  datatype Pattern = Prefix(prefix: string) | Suffix(suffix: string) | Alt(left: Pattern, right: Pattern)

  /** Whether `p` matches somewhere in `s` as its anchors demand (regexp.MatchString). */
  predicate Matches(p: Pattern, s: string)
  {
    match p
    case Prefix(x) => |x| <= |s| && s[..|x|] == x
    case Suffix(x) => |x| <= |s| && s[|s| - |x|..] == x
    case Alt(l, r) => Matches(l, s) || Matches(r, s)
  }

  /** Some pattern of the list matches `s`. */
  predicate MatchesAny(res: seq<Pattern>, s: string)
  {
    exists i :: 0 <= i < |res| && Matches(res[i], s)
  }

  /** The five default patterns: any text type, JSON, JavaScript, any +xml/+json type, SVG. */
  function DefaultAllowedTypes(): (r: seq<Pattern>)
    ensures |r| == 5
  {
    [ Prefix("text/"),
      Prefix("application/json"),
      Prefix("application/javascript"),
      Alt(Suffix("+xml"), Suffix("+json")),
      Prefix("image/svg") ]
  }

  /** matchRegexes: scan the list in order and stop at the first pattern that matches. */
  method MatchRegexes(str: string, res: seq<Pattern>) returns (found: bool)
    ensures found <==> exists i :: 0 <= i < |res| && Matches(res[i], str)
  {
    for i := 0 to |res|
      invariant forall j :: 0 <= j < i ==> !Matches(res[j], str)
    {
      if Matches(res[i], str) {
        return true;
      }
    }
    return false;
  }

  /** Types the default list lets through. */
  lemma DefaultAllowList()
    ensures MatchesAny(DefaultAllowedTypes(), "text/plain")
    ensures MatchesAny(DefaultAllowedTypes(), "application/json; charset=utf-8")
    ensures MatchesAny(DefaultAllowedTypes(), "application/atom+xml")
    ensures MatchesAny(DefaultAllowedTypes(), "image/svg+xml")
  {
    var d := DefaultAllowedTypes();
    assert Matches(d[0], "text/plain");
    assert Matches(d[1], "application/json; charset=utf-8");
    assert Matches(d[3], "application/atom+xml");
    assert Matches(d[4], "image/svg+xml");
  }

  /** A PNG image is not compressed under the defaults. */
  lemma DefaultRejectsPng()
    ensures !MatchesAny(DefaultAllowedTypes(), "image/png")
  {
    var d, png := DefaultAllowedTypes(), "image/png";
    assert !Matches(d[0], png) by { assert png[0] != 't'; }
    assert !Matches(d[1], png) by { assert png[0] != 'a'; }
    assert !Matches(d[2], png) by { assert png[0] != 'a'; }
    assert !Matches(d[3], png) by { assert png[|png| - 1] != 'l' && png[|png| - 1] != 'n'; }
    assert !Matches(d[4], png) by { assert png[6] != 's'; }
  }
}
