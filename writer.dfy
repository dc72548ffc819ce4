/**
 * middlewareWriter: the buffering response writer, as a class whose methods
 * change its fields in place. Every method is proved to change the writer,
 * the underlying ResponseWriter and the encoder exactly as the matching
 * function of module WriterSpec says.
 */
module Writer {
  import opened Base
  import opened Http
  import opened Patterns
  import opened Decimal
  import opened Encoders
  import opened WriterSpec

  class MiddlewareWriter {
    const rw: ResponseWriter
    const minSize: nat
    const allowedType: seq<Pattern>
    const factory: Behaviour
    const encoding: string

    var enc: StreamEncoder?
    var dontEncode: bool
    var shouldEncode: bool
    var headerSent: bool
    var status: int
    var buff: array?<byte>
    var buffLen: nat

    /** The values the writer was created with. */
    function Settings(): Conf
    {
      Conf(minSize, allowedType, factory, encoding)
    }

    /** The writer, its underlying writer and its encoder, as one value. */
    ghost function Abs(): State
      reads this, rw, enc, buff
    {
      State(
        Sink(rw.header, rw.statuses, rw.body),
        if enc == null then None else Some(EncoderState(enc.received, enc.closed, enc.failing)),
        status, headerSent, dontEncode, shouldEncode,
        if buff == null then None else Some(buff[..]),
        buffLen)
    }

    ghost predicate Valid()
      reads this, rw, enc, buff
    {
      Inv(Settings(), Abs())
    }

    /** The writer ServeHTTP builds around `rw` for the negotiated encoding. */
    constructor (rw: ResponseWriter, minSize: nat, allowedType: seq<Pattern>, factory: Behaviour,
                 encoding: string, status: int)
      ensures this.rw == rw && this.minSize == minSize && this.allowedType == allowedType
      ensures this.factory == factory && this.encoding == encoding
      ensures Valid() && Abs() == Initial(Sink(rw.header, rw.statuses, rw.body), status)
    {
      this.rw, this.minSize, this.allowedType := rw, minSize, allowedType;
      this.factory, this.encoding, this.status := factory, encoding, status;
      enc, buff, buffLen := null, null, 0;
      dontEncode, shouldEncode, headerSent := false, false, false;
    }

    method WriteHeader(st: int)
      requires Valid()
      modifies this, rw, enc, buff
      ensures Valid() && Abs() == WriteHeaderS(Settings(), old(Abs()), st)
      ensures enc != old(enc) ==> enc == null || fresh(enc)
      ensures buff != old(buff) ==> buff == null || fresh(buff)
    {
      status := st;
      headerSent := true;

      var cenc := Get(rw.header, ContentEncoding);
      if cenc != "" {
        rw.WriteHeader(st);
        return;
      }
      Decide();
    }

    /** The decision WriteHeader makes when no content-encoding is set. */
    method Decide()
      requires Valid() && Get(rw.header, ContentEncoding) == ""
      modifies this, rw, enc, buff
      ensures Valid() && Abs() == DecideS(Settings(), old(Abs()))
      ensures enc != old(enc) ==> enc == null || fresh(enc)
      ensures buff != old(buff) ==> buff == null || fresh(buff)
    {
      var ctype := Get(rw.header, ContentType);
      if ctype != "" {
        var matched := MatchRegexes(ctype, allowedType);
        if !matched {
          dontEncode := true;
          rw.WriteHeader(status);
          return;
        }
      }

      var clen := Get(rw.header, ContentLength);
      if clen != "" {
        var len := ParseUint(clen);
        if len.Some? && len.value > minSize {
          var _ := StartEncoding();
          return;
        }
      }

      // no decision yet: collect up to minSize bytes
      buff := new byte[minSize](_ => 0);
      assert buff[..] == Zeros(minSize);
    }

    method StartEncoding() returns (ok: bool)
      requires Valid()
      modifies this, rw, enc, buff
      ensures Valid() && (Abs(), ok) == StartEncodingS(Settings(), old(Abs()))
      ensures enc != old(enc) ==> enc == null || fresh(enc)
      ensures buff == old(buff)
    {
      match factory
      case Refuses =>
        enc := null;
        Flush();
        dontEncode := true;
        return false;
      case Builds(fails) =>
        enc := new StreamEncoder(fails);
        shouldEncode := true;
        rw.DelHeader(ContentLength);
        rw.AddHeader(ContentEncoding, encoding);
        rw.WriteHeader(status);
        return true;
    }

    method Write(chunk: seq<byte>) returns (r: WriteResult)
      requires Valid()
      modifies this, rw, enc, buff
      ensures Valid() && (Abs(), r) == WriteS(Settings(), old(Abs()), chunk)
      ensures enc != old(enc) ==> enc == null || fresh(enc)
      ensures buff != old(buff) ==> buff == null || fresh(buff)
    {
      if !headerSent {
        WriteHeader(status);
      }
      if shouldEncode {
        r := enc.Write(chunk);
        return;
      }
      if dontEncode {
        var n := rw.Write(chunk);
        return Ok(n);
      }
      var newBufLen := buffLen + |chunk|;
      if newBufLen > minSize {
        r := Spill(chunk);
      } else {
        r := CopyIn(chunk);
      }
    }

    /** The overflow branch of Write (writer.go:108-120). */
    method Spill(chunk: seq<byte>) returns (r: WriteResult)
      requires Valid()
      modifies this, rw, enc, buff
      ensures Valid() && (Abs(), r) == SpillS(Settings(), old(Abs()), chunk)
      ensures enc != old(enc) ==> enc == null || fresh(enc)
      ensures buff == old(buff) || buff == null
    {
      var started := StartEncoding();
      if started {
        if buffLen > 0 {
          if buff == null {
            return Panic;
          }
          var res := enc.Write(buff[..buffLen]);
          if res.Err? {
            return Err;
          }
        }
        buff := null;
        buffLen := 0;
        r := enc.Write(chunk);
        return;
      }
      var n := rw.Write(chunk);
      return Ok(n);
    }

    /** The buffering branch of Write (writer.go:122-124). */
    method CopyIn(chunk: seq<byte>) returns (r: WriteResult)
      requires Valid() && buffLen + |chunk| <= minSize
      modifies this, buff
      ensures Valid() && (Abs(), r) == CopyS(Settings(), old(Abs()), chunk)
      ensures buff == old(buff) && enc == old(enc)
    {
      var room := if buff == null then 0 else buff.Length;
      if buffLen > room {
        return Panic;
      }
      var n := Min(room - buffLen, |chunk|);
      if buff != null {
        var off := buffLen;
        ghost var was := buff[..];
        forall i | 0 <= i < n {
          buff[off + i] := chunk[i];
        }
        assert buff[..] == Place(was, off, chunk[..n]);
      }
      buffLen := buffLen + |chunk|;
      r := Ok(n);
    }

    /** flush: run once the handler has returned. */
    method Flush()
      requires Valid()
      modifies rw, enc
      ensures Valid() && Abs() == FlushS(Settings(), old(Abs()))
    {
      if enc != null {
        enc.Close();
      }
      if buff != null && buffLen > 0 {
        var _ := rw.Write(buff[0..buffLen]);
      }
    }
  }
}
