/** server/writer/gzip.go: the writer as an object that updates its fields. */
module GzipResponses {
  import opened GzipWriters

  /** The underlying response writer together with the compressor in front of it. */
  class Sink {
    var header: Header
    var out: seq<Output>
    var trailed: bool

    constructor (header: Header)
      ensures this.header == header && out == [] && !trailed
    {
      this.header, out, trailed := header, [], false;
    }

    method Put(o: Output)
      modifies this`out
      ensures out == old(out) + [o]
    {
      out := out + [o];
    }

    /** Closing the compressor again has no effect. */
    method CloseCompressor()
      modifies this
      ensures header == old(header) && trailed
      ensures out == if old(trailed) then old(out) else old(out) + [Trailer]
    {
      if !trailed {
        trailed := true;
        Put(Trailer);
      }
    }
  }

  class Gzip {
    var buffer: seq<byte>
    var enabled: bool
    var headerSent: bool
    var statusCode: int
    ghost var wire: Header
    const rw: Sink

    ghost function View(): Writer
      reads this, rw
    {
      Writer(buffer, enabled, headerSent, statusCode, rw.header, wire, rw.out, rw.trailed)
    }

    constructor (accepts: bool, rw: Sink)
      requires rw.out == [] && !rw.trailed
      ensures this.rw == rw && View() == New(accepts, rw.header)
    {
      this.rw, enabled := rw, accepts;
      buffer, headerSent, statusCode, wire := [], false, 0, rw.header;
    }

    method WriteHeader(statusCode: int)
      modifies this
      ensures View() == Apply(old(View()), SetStatus(statusCode))
    {
      this.statusCode := statusCode;
    }

    method SendHeader()
      modifies this, rw
      ensures View() == WithHeader(old(View()))
    {
      if headerSent {
        return;
      }
      headerSent := true;
      if |buffer| >= MIN_COMPRESS_BODY_LENGTH {
        rw.header := Header(rw.header.encoding, rw.header.contentLength, rw.header.vary + 1);
      }
      if rw.header.encoding == GZIP_NAME {
        enabled := false;
      }
      if enabled {
        rw.header := Header(GZIP_NAME, false, rw.header.vary);
      }
      wire := rw.header;
      if statusCode > 0 {
        rw.Put(Status(statusCode));
      }
    }

    method WriteBytes(p: seq<byte>) returns (n: int)
      modifies rw
      ensures View() == WithBytes(old(View()), p) && n == |p|
    {
      rw.Put(if enabled then Packed(p) else Plain(p));
      n := |p|;
    }

    /** All bytes are taken, and that is what the caller is told. */
    method Write(p: seq<byte>) returns (n: int, ok: bool)
      modifies this, rw
      ensures View() == GzipWriters.Write(old(View()), p)
      ensures ok && n == |p|
    {
      var b := p;
      var bytesLen, bufLen := |p|, |buffer|;
      if bufLen < MIN_COMPRESS_BODY_LENGTH {
        var limit := MIN_COMPRESS_BODY_LENGTH - bufLen;
        buffer := buffer + b;
        if bytesLen < limit {
          return bytesLen, true;
        }
        b := buffer;
      }
      SendHeader();
      n := WriteBytes(b);
      ok := bufLen >= MIN_COMPRESS_BODY_LENGTH || bytesLen == n - bufLen;
      n := if ok then bytesLen else 0;
    }

    method Close()
      modifies this, rw
      ensures View() == GzipWriters.Close(old(View()))
    {
      if |buffer| < MIN_COMPRESS_BODY_LENGTH {
        enabled := false;
        SendHeader();
        var _ := WriteBytes(buffer);
      }
      SendHeader();
      if enabled {
        rw.CloseCompressor();
      }
    }

    method Flush()
      modifies this, rw
      ensures View() == GzipWriters.Flush(old(View()))
    {
      if |buffer| < MIN_COMPRESS_BODY_LENGTH {
        return;
      }
      SendHeader();
      if enabled {
        rw.Put(FlushPacked);
      }
      rw.Put(Flushed);
    }
  }
}
