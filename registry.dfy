/**
 * The encoder registry: encoding name to (priority, factory), and the list of
 * supported names that populateSupportedEncoding derives from it, ordered by
 * ascending priority (middleware.go:72-89, config.go:64-81; both files hold
 * the same code).
 */
module Registry {

  /** Which factory an encoder was registered with: gzip at a compression level, or one of the caller's. */
  datatype Factory = Gzip(level: int) | Custom(name: string)

  /** The registry's value type. */
  datatype Encoder = Encoder(priority: int, factory: Factory)

  /** encoderWithName: a registry entry together with its key. */
  datatype Entry = Entry(name: string, enc: Encoder)

  function Names(list: seq<Entry>): (r: seq<string>)
    ensures |r| == |list| && forall i :: 0 <= i < |list| ==> r[i] == list[i].name
  {
    seq(|list|, i requires 0 <= i < |list| => list[i].name)
  }

  /** `names` holds every key of `encoders` exactly once, in non-decreasing priority. */
  ghost predicate IsSupportedOrder(names: seq<string>, encoders: map<string, Encoder>)
  {
    && multiset(names) == multiset(encoders.Keys)
    && (forall i :: 0 <= i < |names| ==> names[i] in encoders)
    && (forall i, j :: 0 <= i < j < |names| ==> encoders[names[i]].priority <= encoders[names[j]].priority)
  }

  /** No two encoders share a priority. */
  ghost predicate DistinctPriorities(encoders: map<string, Encoder>)
  {
    forall a, b :: a in encoders && b in encoders && a != b ==> encoders[a].priority != encoders[b].priority
  }

  predicate SortedByPriority(s: seq<Entry>)
  {
    forall i, j :: 0 <= i < j < |s| ==> s[i].enc.priority <= s[j].enc.priority
  }

  /** populateSupportedEncoding without its final field assignment: collect the entries in map
      iteration order (any order), sort them in place by priority, keep the names. */
  method SupportedEncodings(encoders: map<string, Encoder>) returns (names: seq<string>)
    ensures IsSupportedOrder(names, encoders)
  {
    var encList := Collect(encoders);
    ghost var collected := encList[..];
    SortByPriority(encList);
    NamesRespectPermutation(encList[..], collected);
    names := NamesOf(encList);
    forall i | 0 <= i < |names|
      ensures names[i] in encoders && encoders[names[i]] == encList[i].enc
    {
      assert encList[i] in multiset(collected);
    }
  }

  /** The entries of the map, one per key, in whatever order the iteration yields them. */
  method Collect(encoders: map<string, Encoder>) returns (encList: array<Entry>)
    ensures fresh(encList) && encList.Length == |encoders|
    ensures multiset(Names(encList[..])) == multiset(encoders.Keys)
    ensures forall e :: e in encList[..] ==> e.name in encoders && e.enc == encoders[e.name]
  {
    encList := new Entry[|encoders|];
    var count := 0;
    var rest := encoders.Keys;
    while rest != {}
      invariant rest <= encoders.Keys && count + |rest| == |encoders|
      invariant multiset(Names(encList[..count])) + multiset(rest) == multiset(encoders.Keys)
      invariant forall e :: e in encList[..count] ==> e.name in encoders && e.enc == encoders[e.name]
      decreases rest
    {
      var name :| name in rest;
      encList[count] := Entry(name, encoders[name]);
      assert encList[..count + 1] == encList[..count] + [Entry(name, encoders[name])];
      assert Names(encList[..count + 1]) == Names(encList[..count]) + [name];
      assert multiset(rest - {name}) + multiset{name} == multiset(rest);
      rest := rest - {name};
      count := count + 1;
    }
    assert encList[..count] == encList[..];
  }

  /** The names of the entries, in order (the final append loop). */
  method NamesOf(a: array<Entry>) returns (names: seq<string>)
    ensures names == Names(a[..])
  {
    names := [];
    for i := 0 to a.Length
      invariant names == Names(a[..i])
    {
      assert a[..i + 1] == a[..i] + [a[i]];
      names := names + [a[i].name];
    }
    assert a[..] == a[..a.Length];
  }

  /** sort.Slice by priority. The order of equal priorities is unspecified, as with sort.Slice;
      this is a selection sort. */
  method SortByPriority(a: array<Entry>)
    modifies a
    ensures SortedByPriority(a[..])
    ensures multiset(a[..]) == multiset(old(a[..]))
  {
    for i := 0 to a.Length
      invariant SortedUpTo(a[..], i)
      invariant multiset(a[..]) == multiset(old(a[..]))
    {
      var m := LeastFrom(a, i);
      SelectionStep(a[..], i, m);
      a[i], a[m] := a[m], a[i];
    }
    assert a[..] == a[..][..a.Length];
  }

  /** The first i entries are sorted and none has a greater priority than any later entry. */
  ghost predicate SortedUpTo(s: seq<Entry>, i: nat)
  {
    && i <= |s|
    && SortedByPriority(s[..i])
    && (forall p, q :: 0 <= p < i <= q < |s| ==> s[p].enc.priority <= s[q].enc.priority)
  }

  /** Swapping a least entry of the unsorted part into position i extends the sorted prefix. */
  lemma SelectionStep(s: seq<Entry>, i: nat, m: nat)
    requires SortedUpTo(s, i) && i <= m < |s|
    requires forall q :: i <= q < |s| ==> s[m].enc.priority <= s[q].enc.priority
    ensures SortedUpTo(s[i := s[m]][m := s[i]], i + 1)
  {
    var t := s[i := s[m]][m := s[i]];
    assert forall p :: 0 <= p < i ==> t[p] == s[p];
    assert t[i] == s[m];
    assert forall q :: i < q < |s| ==> t[q] == s[q] || (q == m && t[q] == s[i]);
  }

  /** The index of an entry of least priority among a[from..]. */
  method LeastFrom(a: array<Entry>, from: nat) returns (m: nat)
    requires from < a.Length
    ensures from <= m < a.Length
    ensures forall q :: from <= q < a.Length ==> a[m].enc.priority <= a[q].enc.priority
  {
    m := from;
    for k := from + 1 to a.Length
      invariant from <= m < a.Length
      invariant forall q :: from <= q < k ==> a[m].enc.priority <= a[q].enc.priority
    {
      if a[k].enc.priority < a[m].enc.priority {
        m := k;
      }
    }
  }

  lemma NamesAppend(s: seq<Entry>, t: seq<Entry>)
    ensures Names(s + t) == Names(s) + Names(t)
  {
  }

  /** Rearranging entries rearranges their names the same way. */
  lemma {:induction false} NamesRespectPermutation(s: seq<Entry>, t: seq<Entry>)
    requires multiset(s) == multiset(t)
    ensures multiset(Names(s)) == multiset(Names(t))
    decreases |s|
  {
    if s == [] {
      assert |t| == |multiset(t)| == 0;
    } else {
      var x := s[0];
      assert x in multiset(t);
      var k :| 0 <= k < |t| && t[k] == x;
      var u := t[..k] + t[k + 1..];
      assert t == t[..k] + [x] + t[k + 1..];
      assert s == [x] + s[1..];
      assert multiset(t) == multiset(t[..k]) + multiset{x} + multiset(t[k + 1..]);
      assert multiset(s) == multiset{x} + multiset(s[1..]);
      assert multiset(u) == multiset(t[..k]) + multiset(t[k + 1..]);
      assert multiset(s[1..]) == multiset(s) - multiset{x};
      assert multiset(u) == multiset(t) - multiset{x};
      NamesRespectPermutation(s[1..], u);
      NamesAppend([x], s[1..]);
      NamesAppend(t[..k], t[k + 1..]);
      NamesAppend(t[..k] + [x], t[k + 1..]);
      NamesAppend(t[..k], [x]);
    }
  }

  /** With distinct priorities the supported order is determined: any two such lists are equal. */
  lemma {:induction false} SupportedOrderUnique(xs: seq<string>, ys: seq<string>, encoders: map<string, Encoder>)
    requires IsSupportedOrder(xs, encoders) && IsSupportedOrder(ys, encoders)
    requires DistinctPriorities(encoders)
    ensures xs == ys
    decreases |xs|
  {
    assert |xs| == |multiset(xs)| == |multiset(ys)| == |ys|;
    if xs != [] {
      HeadsAgree(xs, ys, encoders);
      var rest := encoders - {xs[0]};
      TailIsSupportedOrder(xs, encoders);
      TailIsSupportedOrder(ys, encoders);
      assert DistinctPriorities(rest);
      SupportedOrderUnique(xs[1..], ys[1..], rest);
      assert xs == [xs[0]] + xs[1..] && ys == [ys[0]] + ys[1..];
    }
  }

  /** Both lists start with the one encoder of least priority. */
  lemma HeadsAgree(xs: seq<string>, ys: seq<string>, encoders: map<string, Encoder>)
    requires IsSupportedOrder(xs, encoders) && IsSupportedOrder(ys, encoders)
    requires DistinctPriorities(encoders) && xs != [] && ys != []
    ensures xs[0] == ys[0]
  {
    var x, y := xs[0], ys[0];
    assert y in multiset(xs);
    var j :| 0 <= j < |xs| && xs[j] == y;
    assert x in multiset(ys);
    var k :| 0 <= k < |ys| && ys[k] == x;
    assert encoders[x].priority <= encoders[y].priority;
    assert encoders[y].priority <= encoders[x].priority;
  }

  /** Dropping the first name of a supported order leaves a supported order of the remaining encoders. */
  lemma TailIsSupportedOrder(xs: seq<string>, encoders: map<string, Encoder>)
    requires IsSupportedOrder(xs, encoders) && xs != []
    ensures IsSupportedOrder(xs[1..], encoders - {xs[0]})
  {
    var x := xs[0];
    var rest := encoders - {x};
    assert xs == [x] + xs[1..];
    assert multiset(xs[1..]) == multiset(xs) - multiset{x};
    assert rest.Keys == encoders.Keys - {x};
    assert multiset(rest.Keys) == multiset(encoders.Keys) - multiset{x};
    assert multiset(xs)[x] == 1;
    forall i | 0 <= i < |xs[1..]|
      ensures xs[1..][i] in rest
    {
      assert xs[1..][i] in multiset(xs[1..]);
    }
  }
}
