/** server/writer/gzip.go: a response writer that compresses bodies of at least 60 bytes. The
    compressor is taken as a stream that records what it is given. */
module GzipWriters {

  const MIN_COMPRESS_BODY_LENGTH := 60

  const GZIP_NAME := "gzip"

  type byte = x: int | 0 <= x < 256

  /** What reaches the underlying response writer, in order. */
  datatype Output =
    | Status(code: int)
    | Plain(bytes: seq<byte>)
    | Packed(bytes: seq<byte>) // through the compressor
    | FlushPacked
    | Flushed
    | Trailer                  // of the compressed stream

  /** The header fields that matter here. vary counts how often the Vary header was added. */
  datatype Header = Header(encoding: string, contentLength: bool, vary: nat)

  /** wire: the header fields as they were when the header was sent. trailed: the compressor was closed. */
  datatype Writer = Writer(
    buffer: seq<byte>, enabled: bool, headerSent: bool, statusCode: int, header: Header, wire: Header,
    out: seq<Output>, trailed: bool)

  // ---------- The operations ----------

  function With(header: Header, enc: string): Header {
    Header(enc, header.contentLength, header.vary)
  }

  function New(accepts: bool, header: Header): Writer {
    Writer([], accepts, false, 0, header, header, [], false)
  }

  /** The header as it goes out. */
  function Prepared(h: Header, long: bool, enabled: bool): Header {
    Header(if enabled then GZIP_NAME else h.encoding, h.contentLength && !enabled, if long then h.vary + 1 else h.vary)
  }

  /** Sends the header if that has not been done. */
  function WithHeader(g: Writer): Writer {
    if g.headerSent then g
    else
      var enabled := g.enabled && g.header.encoding != GZIP_NAME;
      var header := Prepared(g.header, |g.buffer| >= MIN_COMPRESS_BODY_LENGTH, enabled);
      Writer(g.buffer, enabled, true, g.statusCode, header, header,
             if g.statusCode > 0 then g.out + [Status(g.statusCode)] else g.out, g.trailed)
  }

  function WithOutput(g: Writer, o: Output): Writer {
    Writer(g.buffer, g.enabled, g.headerSent, g.statusCode, g.header, g.wire, g.out + [o], g.trailed)
  }

  function WithBytes(g: Writer, b: seq<byte>): Writer {
    WithOutput(g, if g.enabled then Packed(b) else Plain(b))
  }

  function Filled(g: Writer, p: seq<byte>): Writer {
    Writer(g.buffer + p, g.enabled, g.headerSent, g.statusCode, g.header, g.wire, g.out, g.trailed)
  }

  function Write(g: Writer, p: seq<byte>): Writer {
    if |g.buffer| >= MIN_COMPRESS_BODY_LENGTH then WithBytes(WithHeader(g), p)
    else if |g.buffer + p| < MIN_COMPRESS_BODY_LENGTH then Filled(g, p)
    else WithBytes(WithHeader(Filled(g, p)), g.buffer + p)
  }

  function Flush(g: Writer): Writer {
    if |g.buffer| < MIN_COMPRESS_BODY_LENGTH then g
    else
      var h := WithHeader(g);
      WithOutput(if h.enabled then WithOutput(h, FlushPacked) else h, Flushed)
  }

  function Disabled(g: Writer): Writer {
    Writer(g.buffer, false, g.headerSent, g.statusCode, g.header, g.wire, g.out, g.trailed)
  }

  function Close(g: Writer): Writer {
    var small := |g.buffer| < MIN_COMPRESS_BODY_LENGTH;
    var h := WithHeader(if small then WithBytes(WithHeader(Disabled(g)), g.buffer) else g);
    if h.enabled && !h.trailed then
      Writer(h.buffer, h.enabled, h.headerSent, h.statusCode, h.header, h.wire, h.out + [Trailer], true)
    else h
  }

  /** What a handler does before it closes the writer. */
  datatype Op = Chunk(p: seq<byte>) | FlushNow | SetStatus(code: int) | SetEncoding(value: string)

  function Apply(g: Writer, op: Op): Writer {
    match op
    case Chunk(p) => Write(g, p)
    case FlushNow => Flush(g)
    case SetStatus(code) => Writer(g.buffer, g.enabled, g.headerSent, code, g.header, g.wire, g.out, g.trailed)
    case SetEncoding(value) =>
      Writer(g.buffer, g.enabled, g.headerSent, g.statusCode, With(g.header, value), g.wire, g.out, g.trailed)
  }

  function Run(g: Writer, ops: seq<Op>): Writer {
    if ops == [] then g else Apply(Run(g, ops[..|ops| - 1]), ops[|ops| - 1])
  }

  // ---------- What is meant ----------

  /** All chunks together. */
  function Body(ops: seq<Op>): seq<byte> {
    if ops == [] then []
    else
      var last := ops[|ops| - 1];
      Body(ops[..|ops| - 1]) + if last.Chunk? then last.p else []
  }

  /** Status and encoding as set when the header has to go out: with the chunk that completes
      the first 60 bytes, or at the end. */
  function AtHeader(encoding: string, ops: seq<Op>): (int, string) {
    if ops == [] then (0, encoding)
    else
      var init, last := ops[..|ops| - 1], ops[|ops| - 1];
      var before := AtHeader(encoding, init);
      if |Body(init)| >= MIN_COMPRESS_BODY_LENGTH then before
      else if last.SetStatus? then (last.code, before.1)
      else if last.SetEncoding? then (before.0, last.value)
      else before
  }

  function PlainText(out: seq<Output>): seq<byte> {
    if out == [] then []
    else
      var last := out[|out| - 1];
      PlainText(out[..|out| - 1]) + if last.Plain? then last.bytes else []
  }

  function PackedText(out: seq<Output>): seq<byte> {
    if out == [] then []
    else
      var last := out[|out| - 1];
      PackedText(out[..|out| - 1]) + if last.Packed? then last.bytes else []
  }

  /** The status is sent as often as this, first of all. */
  ghost predicate StatusFirst(out: seq<Output>, code: int) {
    && (code > 0 ==> |out| > 0 && out[0] == Status(code))
    && (forall i :: 0 <= i < |out| && out[i].Status? ==> i == 0 && code > 0)
  }

  /** The body has gone one way only, and is not yet complete. */
  ghost predicate Sent(g: Writer, body: seq<byte>) {
    && PlainText(g.out) == (if g.enabled then [] else body)
    && PackedText(g.out) == (if g.enabled then body else [])
    && forall i :: 0 <= i < |g.out| ==> g.out[i] != Trailer
  }

  /** The writer still collects the body. */
  ghost predicate Collects(g: Writer, accepts: bool, body: seq<byte>, code: int, header: Header) {
    && g.buffer == body && g.enabled == accepts && !g.headerSent && g.out == [] && !g.trailed
    && g.statusCode == code && g.header == header
  }

  /** The writer has decided, and passes the body on. */
  ghost predicate Passes(g: Writer, accepts: bool, body: seq<byte>, code: int, header: Header) {
    && |g.buffer| >= MIN_COMPRESS_BODY_LENGTH && g.headerSent && g.enabled == (accepts && header.encoding != GZIP_NAME)
    && Sent(g, body) && StatusFirst(g.out, code)
    && g.wire == Prepared(header, true, g.enabled) && !g.trailed
  }

  /** Everything about a writer after these operations. */
  ghost predicate Keeps(g: Writer, accepts: bool, header: Header, ops: seq<Op>) {
    var body := Body(ops);
    var (code, enc) := AtHeader(header.encoding, ops);
    if |body| < MIN_COMPRESS_BODY_LENGTH then Collects(g, accepts, body, code, With(header, enc))
    else Passes(g, accepts, body, code, With(header, enc))
  }

  lemma OneMoreOp(ops: seq<Op>, op: Op, encoding: string)
    ensures Body(ops + [op]) == Body(ops) + if op.Chunk? then op.p else []
    ensures AtHeader(encoding, ops + [op]) ==
      var before := AtHeader(encoding, ops);
      if |Body(ops)| >= MIN_COMPRESS_BODY_LENGTH then before
      else if op.SetStatus? then (op.code, before.1)
      else if op.SetEncoding? then (before.0, op.value)
      else before
  {
    assert (ops + [op])[..|ops|] == ops;
  }

  lemma OneMoreOutput(out: seq<Output>, o: Output)
    ensures PlainText(out + [o]) == PlainText(out) + if o.Plain? then o.bytes else []
    ensures PackedText(out + [o]) == PackedText(out) + if o.Packed? then o.bytes else []
  {
    assert (out + [o])[..|out|] == out;
  }

  lemma SentMore(g: Writer, body: seq<byte>, o: Output)
    requires Sent(g, body) && o != Trailer && (if g.enabled then !o.Plain? else !o.Packed?)
    ensures Sent(WithOutput(g, o), body + if o.Plain? || o.Packed? then o.bytes else [])
  {
    OneMoreOutput(g.out, o);
  }

  lemma StatusStaysFirst(out: seq<Output>, code: int, o: Output)
    requires StatusFirst(out, code) && !o.Status?
    ensures StatusFirst(out + [o], code)
  {
  }

  lemma HeaderAlone(g: Writer)
    requires g.out == [] && !g.headerSent
    ensures Sent(WithHeader(g), []) && StatusFirst(WithHeader(g).out, g.statusCode)
  {
    OneMoreOutput([], Status(g.statusCode));
    assert [] + [Status(g.statusCode)] == [Status(g.statusCode)];
  }

  /** Header and collected bytes go out. */
  lemma HeaderThenBytes(g: Writer, b: seq<byte>)
    requires g.out == [] && !g.headerSent
    ensures Sent(WithBytes(WithHeader(g), b), b) && StatusFirst(WithBytes(WithHeader(g), b).out, g.statusCode)
  {
    HeaderAlone(g);
    var h := WithHeader(g);
    var o := if h.enabled then Packed(b) else Plain(b);
    SentMore(h, [], o);
    StatusStaysFirst(h.out, g.statusCode, o);
    assert [] + b == b;
  }

  lemma ChunkPasses(g: Writer, accepts: bool, body: seq<byte>, code: int, header: Header, p: seq<byte>)
    requires Passes(g, accepts, body, code, header)
    ensures Passes(Write(g, p), accepts, body + p, code, header)
  {
    var o := if g.enabled then Packed(p) else Plain(p);
    SentMore(g, body, o);
    StatusStaysFirst(g.out, code, o);
  }

  lemma ChunkCollects(g: Writer, accepts: bool, body: seq<byte>, code: int, header: Header, p: seq<byte>)
    requires Collects(g, accepts, body, code, header) && |body| < MIN_COMPRESS_BODY_LENGTH
    ensures if |body + p| < MIN_COMPRESS_BODY_LENGTH then Collects(Write(g, p), accepts, body + p, code, header)
            else Passes(Write(g, p), accepts, body + p, code, header)
  {
    if |body + p| >= MIN_COMPRESS_BODY_LENGTH {
      HeaderThenBytes(Filled(g, p), body + p);
    }
  }

  lemma FlushPasses(g: Writer, accepts: bool, body: seq<byte>, code: int, header: Header)
    requires Passes(g, accepts, body, code, header)
    ensures Passes(Flush(g), accepts, body, code, header)
  {
    assert body + [] == body;
    SentMore(g, body, FlushPacked);
    StatusStaysFirst(g.out, code, FlushPacked);
    var h := if g.enabled then WithOutput(g, FlushPacked) else g;
    SentMore(h, body, Flushed);
    StatusStaysFirst(h.out, code, Flushed);
  }

  lemma ApplyKeeps(g: Writer, accepts: bool, header: Header, ops: seq<Op>, op: Op)
    requires Keeps(g, accepts, header, ops)
    ensures Keeps(Apply(g, op), accepts, header, ops + [op])
  {
    var body := Body(ops);
    var (code, enc) := AtHeader(header.encoding, ops);
    OneMoreOp(ops, op, header.encoding);
    assert body + [] == body;
    if |body| < MIN_COMPRESS_BODY_LENGTH {
      if op.Chunk? {
        ChunkCollects(g, accepts, body, code, With(header, enc), op.p);
      }
    } else if op.Chunk? {
      ChunkPasses(g, accepts, body, code, With(header, enc), op.p);
    } else if op.FlushNow? {
      FlushPasses(g, accepts, body, code, With(header, enc));
    }
  }

  lemma {:induction false} RunKeeps(accepts: bool, header: Header, ops: seq<Op>)
    ensures Keeps(Run(New(accepts, header), ops), accepts, header, ops)
  {
    if ops != [] {
      var init, last := ops[..|ops| - 1], ops[|ops| - 1];
      RunKeeps(accepts, header, init);
      assert ops == init + [last];
      ApplyKeeps(Run(New(accepts, header), init), accepts, header, init, last);
    }
  }

  // ---------- The complete response ----------

  /** The response is compressed exactly if the client accepts that, the body is long enough, and
      it is not compressed already. */
  predicate Compresses(accepts: bool, header: Header, ops: seq<Op>) {
    accepts && |Body(ops)| >= MIN_COMPRESS_BODY_LENGTH && AtHeader(header.encoding, ops).1 != GZIP_NAME
  }

  function Response(accepts: bool, header: Header, ops: seq<Op>): Writer {
    Close(Run(New(accepts, header), ops))
  }

  lemma SmallClose(g: Writer, accepts: bool, header: Header, ops: seq<Op>)
    requires Keeps(g, accepts, header, ops) && |Body(ops)| < MIN_COMPRESS_BODY_LENGTH
    ensures var h := Close(g);
            && Sent(h, Body(ops)) && StatusFirst(h.out, AtHeader(header.encoding, ops).0)
            && !h.enabled && h.headerSent && h.buffer == Body(ops)
            && h.wire == With(header, AtHeader(header.encoding, ops).1)
  {
    HeaderThenBytes(Disabled(g), g.buffer);
  }

  /** For any chunks and flushes: the whole body is delivered, in order, either compressed with
      one trailer at the end, or plainly without. */
  lemma BodyIsDelivered(accepts: bool, header: Header, ops: seq<Op>)
    ensures var out := Response(accepts, header, ops).out;
            var packed := Compresses(accepts, header, ops);
            && PlainText(out) == (if packed then [] else Body(ops))
            && PackedText(out) == (if packed then Body(ops) else [])
            && (forall i :: 0 <= i < |out| ==> (out[i] == Trailer <==> packed && i == |out| - 1))
            && (packed ==> |out| > 0)
  {
    RunKeeps(accepts, header, ops);
    var g := Run(New(accepts, header), ops);
    if |Body(ops)| < MIN_COMPRESS_BODY_LENGTH {
      SmallClose(g, accepts, header, ops);
    } else {
      OneMoreOutput(g.out, Trailer);
    }
  }

  /** The status, if any, is sent once and first. Vary is added once, exactly for bodies that are
      long enough. A response says gzip and names no length if it is compressed here; otherwise
      both fields go out as they were. */
  lemma HeaderIsRight(accepts: bool, header: Header, ops: seq<Op>)
    ensures var g := Response(accepts, header, ops);
            var (code, encoding) := AtHeader(header.encoding, ops);
            && StatusFirst(g.out, code)
            && (g.wire.contentLength <==> header.contentLength && !Compresses(accepts, header, ops))
            && g.wire.encoding == (if Compresses(accepts, header, ops) then "gzip" else encoding)
            && g.wire.vary == header.vary + if |Body(ops)| >= 60 then 1 else 0
  {
    RunKeeps(accepts, header, ops);
    var g := Run(New(accepts, header), ops);
    if |Body(ops)| < MIN_COMPRESS_BODY_LENGTH {
      SmallClose(g, accepts, header, ops);
    } else if g.enabled {
      StatusStaysFirst(g.out, AtHeader(header.encoding, ops).0, Trailer);
    }
  }

  lemma {:induction false} SettledHeader(encoding: string, ops: seq<Op>, more: seq<Op>)
    requires |Body(ops)| >= 60
    ensures |Body(ops + more)| >= 60 && AtHeader(encoding, ops + more) == AtHeader(encoding, ops)
    decreases |more|
  {
    if more == [] {
      assert ops + more == ops;
    } else {
      var init, last := more[..|more| - 1], more[|more| - 1];
      SettledHeader(encoding, ops, init);
      assert ops + more == ops + init + [last];
      OneMoreOp(ops + init, last, encoding);
    }
  }

  /** Status and encoding that are set after the first 60 bytes come too late. */
  lemma LateSettings(accepts: bool, header: Header, ops: seq<Op>, more: seq<Op>)
    requires |Body(ops)| >= 60
    ensures Response(accepts, header, ops + more).wire == Response(accepts, header, ops).wire
    ensures StatusFirst(Response(accepts, header, ops + more).out, AtHeader(header.encoding, ops).0)
  {
    SettledHeader(header.encoding, ops, more);
    HeaderIsRight(accepts, header, ops);
    HeaderIsRight(accepts, header, ops + more);
  }

  /** What is set before that counts: the latest status, and the latest encoding. */
  lemma EarlySettings(encoding: string, ops: seq<Op>, code: int, value: string)
    requires |Body(ops)| < 60
    ensures AtHeader(encoding, ops + [SetStatus(code)]) == (code, AtHeader(encoding, ops).1)
    ensures AtHeader(encoding, ops + [SetEncoding(value)]) == (AtHeader(encoding, ops).0, value)
  {
    OneMoreOp(ops, SetStatus(code), encoding);
    OneMoreOp(ops, SetEncoding(value), encoding);
  }

  /** After the first 60 bytes, a flush is passed on when everything so far has been written, first
      by the compressor, if that is used. Before that, nothing goes out at all. */
  lemma FlushReaches(accepts: bool, header: Header, ops: seq<Op>)
    ensures var out := Run(New(accepts, header), ops + [FlushNow]).out;
            if |Body(ops)| < 60 then out == []
            else
              && |out| > 0 && out[|out| - 1] == Flushed
              && PlainText(out) + PackedText(out) == Body(ops)
              && (Compresses(accepts, header, ops) ==> |out| > 1 && out[|out| - 2] == FlushPacked)
  {
    RunKeeps(accepts, header, ops);
    RunKeeps(accepts, header, ops + [FlushNow]);
    OneMoreOp(ops, FlushNow, header.encoding);
    assert (ops + [FlushNow])[..|ops|] == ops;
  }

  /** Different chunks of the same body, and any flushes, give the same text on the same path. */
  lemma ChunkingIsInvisible(accepts: bool, header: Header, ops: seq<Op>, other: seq<Op>)
    requires Body(ops) == Body(other) && AtHeader(header.encoding, ops) == AtHeader(header.encoding, other)
    ensures PlainText(Response(accepts, header, ops).out) == PlainText(Response(accepts, header, other).out)
    ensures PackedText(Response(accepts, header, ops).out) == PackedText(Response(accepts, header, other).out)
  {
    BodyIsDelivered(accepts, header, ops);
    BodyIsDelivered(accepts, header, other);
  }

  lemma CloseAgain(g: Writer)
    requires g.headerSent
    ensures |g.buffer| < MIN_COMPRESS_BODY_LENGTH && !g.enabled ==> Close(g) == WithOutput(g, Plain(g.buffer))
    ensures |g.buffer| >= MIN_COMPRESS_BODY_LENGTH && (g.enabled ==> g.trailed) ==> Close(g) == g
  {
  }

  /** Closing a second time delivers a short body again: the text stays right exactly if the
      body is empty or long enough. */
  lemma ClosingTwice(accepts: bool, header: Header, ops: seq<Op>)
    ensures var out := Close(Response(accepts, header, ops)).out;
            PlainText(out) + PackedText(out) == Body(ops)
            <==> |Body(ops)| == 0 || |Body(ops)| >= MIN_COMPRESS_BODY_LENGTH
  {
    BodyIsDelivered(accepts, header, ops);
    if |Body(ops)| < MIN_COMPRESS_BODY_LENGTH {
      ShortAgain(accepts, header, ops);
    } else {
      LongStays(accepts, header, ops);
    }
  }

  lemma ShortAgain(accepts: bool, header: Header, ops: seq<Op>)
    requires |Body(ops)| < MIN_COMPRESS_BODY_LENGTH
    ensures var out := Close(Response(accepts, header, ops)).out;
            PlainText(out) == Body(ops) + Body(ops) && PackedText(out) == []
  {
    RunKeeps(accepts, header, ops);
    SmallClose(Run(New(accepts, header), ops), accepts, header, ops);
    var g := Response(accepts, header, ops);
    CloseAgain(g);
    OneMoreOutput(g.out, Plain(g.buffer));
  }

  lemma LongStays(accepts: bool, header: Header, ops: seq<Op>)
    requires |Body(ops)| >= MIN_COMPRESS_BODY_LENGTH
    ensures Close(Response(accepts, header, ops)) == Response(accepts, header, ops)
  {
    RunKeeps(accepts, header, ops);
    CloseAgain(Response(accepts, header, ops));
  }
}
