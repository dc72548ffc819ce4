/**
 * The HTTP response writer the middleware wraps: a header map, the log of
 * status codes sent with WriteHeader, and the body bytes written so far.
 * Header keys are stored in one canonical (lower-case) spelling; each key maps
 * to its list of values, as Go's http.Header does.
 */
module Http {
  import opened Base

  type Header = map<string, seq<string>>

  const ContentEncoding: string := "content-encoding"
  const ContentType: string := "content-type"
  const ContentLength: string := "content-length"

  /** Header.Get: the first value of `key`, or "" when there is none. */
  function Get(h: Header, key: string): (v: string)
    ensures key !in h ==> v == ""
    ensures key in h && |h[key]| > 0 ==> v == h[key][0]
  {
    if key in h && |h[key]| > 0 then h[key][0] else ""
  }

  /** Header.Set: `key` now has exactly the one value `v`. */
  function Set(h: Header, key: string, v: string): (r: Header)
    ensures key in r && r[key] == [v] && Get(r, key) == v
    ensures forall k :: k != key ==> (k in r <==> k in h) && (k in h ==> r[k] == h[k])
  {
    h[key := [v]]
  }

  /** Header.Add: `v` is appended to the values of `key`. */
  function Add(h: Header, key: string, v: string): (r: Header)
    ensures key in r && r[key] == (if key in h then h[key] else []) + [v]
    ensures (key !in h || h[key] == []) ==> Get(r, key) == v
    ensures forall k :: k != key ==> (k in r <==> k in h) && (k in h ==> r[k] == h[k])
  {
    h[key := (if key in h then h[key] else []) + [v]]
  }

  /** Header.Del: `key` is gone, every other key is untouched. */
  function Del(h: Header, key: string): (r: Header)
    ensures key !in r && Get(r, key) == ""
    ensures forall k :: k != key ==> (k in r <==> k in h) && (k in h ==> r[k] == h[k])
  {
    h - {key}
  }

  /** The underlying writer. It accepts every byte: writes never fail. */
  class ResponseWriter {
    var header: Header
    var statuses: seq<int>
    var body: seq<byte>

    constructor (h: Header)
      ensures header == h && statuses == [] && body == []
    {
      header, statuses, body := h, [], [];
    }

    method WriteHeader(status: int)
      modifies this
      ensures statuses == old(statuses) + [status]
      ensures header == old(header) && body == old(body)
    {
      statuses := statuses + [status];
    }

    method Write(chunk: seq<byte>) returns (n: nat)
      modifies this
      ensures body == old(body) + chunk && n == |chunk|
      ensures header == old(header) && statuses == old(statuses)
    {
      body := body + chunk;
      n := |chunk|;
    }

    method SetHeader(key: string, v: string)
      modifies this
      ensures header == Set(old(header), key, v)
      ensures statuses == old(statuses) && body == old(body)
    {
      header := Set(header, key, v);
    }

    method AddHeader(key: string, v: string)
      modifies this
      ensures header == Add(old(header), key, v)
      ensures statuses == old(statuses) && body == old(body)
    {
      header := Add(header, key, v);
    }

    method DelHeader(key: string)
      modifies this
      ensures header == Del(old(header), key)
      ensures statuses == old(statuses) && body == old(body)
    {
      header := Del(header, key);
    }
  }
}
