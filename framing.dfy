/**
 * The length-prefixed frame of libserver.py as pure functions.
 *
 * A frame is a 2-byte big-endian length, a JSON header of that many bytes, and the content,
 * whose length the header's "content-length" gives. The receiving side is an incremental
 * parser over the receive buffer with three guarded stages; `RecvState` is the part of a
 * `Message` they read and write. The class in libserver.dfy runs these steps in place.
 */
module Framing {
  import opened Wrappers
  import opened PyJson

  /** Width of the length prefix, `struct.pack(">H", ...)`. */
  const ProtoHeaderLen: nat := 2

  /** Exclusive bound of an unsigned 16-bit length. */
  const MaxHeaderLen: nat := 0x1_0000

  /** The keys process_jsonheader insists on, in the order it checks them. */
  const RequiredHeaders: seq<string> := ["byteorder", "content-length", "content-type", "content-encoding"]

  /** `struct.unpack(">H", b[:2])[0]`. */
  function UnpackU16(b: Bytes): (n: nat)
    requires |b| >= 2
    ensures n < MaxHeaderLen
  {
    (b[0] as int) * 256 + (b[1] as int)
  }

  /** `struct.pack(">H", n)`; the caller has checked the range (struct.error otherwise). */
  function PackU16(n: nat): (b: Bytes)
    requires n < MaxHeaderLen
    ensures |b| == 2 && UnpackU16(b) == n
  {
    [n / 256, n % 256]
  }

  /** Two bytes are the packing of the number they unpack to. */
  lemma PackUnpackU16(b: Bytes)
    requires |b| == 2
    ensures PackU16(UnpackU16(b)) == b
  {
    var n := UnpackU16(b);
    assert n / 256 == b[0] && n % 256 == b[1] by {
      assert n == (b[0] as int) * 256 + (b[1] as int) && 0 <= b[1] < 256;
    }
  }

  /** The position Python uses for the bound `n` in `s[:n]` and `s[n:]` (negative counts from the end). */
  function SliceIndex(len: nat, n: int): (k: nat)
    ensures k <= len
    ensures 0 <= n <= len ==> k == n
    ensures n < 0 ==> k == if len + n >= 0 then len + n else 0
    ensures n > len ==> k == len
  {
    if n >= 0 then (if n <= len then n else len)
    else if len + n >= 0 then len + n else 0
  }

  /** `s[:n]`: a prefix of `s`, as long as the cut. */
  function PyTake(s: Bytes, n: int): (r: Bytes)
    ensures r <= s && |r| == SliceIndex(|s|, n)
  {
    s[..SliceIndex(|s|, n)]
  }

  /** `s[n:]`: what is left after `s[:n]`. */
  function PyDrop(s: Bytes, n: int): (r: Bytes)
    ensures PyTake(s, n) + r == s
    ensures 0 <= n <= |s| ==> |r| == |s| - n
  {
    s[SliceIndex(|s|, n)..]
  }

  /** `b` is what remains of `a` after some prefix was removed. */
  predicate IsSuffix(b: Bytes, a: Bytes)
  {
    |b| <= |a| && a[|a| - |b|..] == b
  }

  // ---------------------------------------------------------------- sending

  /** The header dictionary _create_message builds. */
  function MessageHeader(byteorder: string, contentType: string, contentEncoding: string, contentLength: nat): (h: Json)
    ensures h.JObj? && Truthy(h)
    ensures forall k :: k in RequiredHeaders ==> k in h.fields
  {
    var fields := map[
      "byteorder" := JStr(byteorder),
      "content-type" := JStr(contentType),
      "content-encoding" := JStr(contentEncoding),
      "content-length" := JInt(contentLength)];
    assert "byteorder" in fields;
    JObj(fields)
  }

  /** _create_message: length prefix, JSON header, content. */
  function CreateMessage(codec: JsonCodec, byteorder: string, content: Bytes, contentType: string,
                         contentEncoding: string): (r: Result<Bytes>)
    ensures var hb := codec.encode(MessageHeader(byteorder, contentType, contentEncoding, |content|));
      && (r.Ok? <==> |hb| < MaxHeaderLen)
      && (r.Err? ==> r.error == StructError)
      && (r.Ok? ==>
            && |r.value| == ProtoHeaderLen + |hb| + |content|
            && UnpackU16(r.value) == |hb|
            && r.value[ProtoHeaderLen..ProtoHeaderLen + |hb|] == hb
            && r.value[ProtoHeaderLen + |hb|..] == content)
  {
    var hb := codec.encode(MessageHeader(byteorder, contentType, contentEncoding, |content|));
    if |hb| < MaxHeaderLen then
      var frame := PackU16(|hb|) + hb + content;
      assert frame[..2] == PackU16(|hb|);
      Ok(frame)
    else
      Err(StructError)
  }

  /** The header a lawful decoder recovers from a frame's header bytes carries the content's length and labels. */
  lemma CreatedHeaderDescribesContent(codec: JsonCodec, byteorder: string, content: Bytes, contentType: string,
                                      contentEncoding: string)
    requires Lawful(codec)
    requires CreateMessage(codec, byteorder, content, contentType, contentEncoding).Ok?
    ensures var frame := CreateMessage(codec, byteorder, content, contentType, contentEncoding).value;
      var hlen := UnpackU16(frame);
      && ProtoHeaderLen + hlen <= |frame|
      && var decoded := codec.decode(frame[ProtoHeaderLen..ProtoHeaderLen + hlen], "utf-8");
      && decoded.Some? && decoded.value.JObj?
      && Subscript(decoded.value, "content-length") == Ok(JInt(|frame| - ProtoHeaderLen - hlen))
      && Subscript(decoded.value, "content-type") == Ok(JStr(contentType))
      && Subscript(decoded.value, "content-encoding") == Ok(JStr(contentEncoding))
  {
    var hdr := MessageHeader(byteorder, contentType, contentEncoding, |content|);
    assert codec.decode(codec.encode(hdr), "utf-8") == Some(hdr);
  }

  // ---------------------------------------------------------------- receiving

  /** The fields the parser reads and writes; `JNull` stands for a header or request still None. */
  datatype RecvState = RecvState(buffer: Bytes, headerLen: Option<nat>, header: Json, request: Json)

  /** A Message as it is created: nothing buffered, nothing parsed. */
  function Initial(): RecvState
  {
    RecvState([], None, JNull, JNull)
  }

  /** process_protoheader: once two bytes are buffered, they become the header length. */
  function ProcessProtoheader(s: RecvState): (t: RecvState)
    ensures |s.buffer| < ProtoHeaderLen ==> t == s
    ensures |s.buffer| >= ProtoHeaderLen ==>
      && t.headerLen.Some? && t.headerLen.value < MaxHeaderLen
      && s.buffer == PackU16(t.headerLen.value) + t.buffer
      && t.header == s.header && t.request == s.request
  {
    if |s.buffer| >= ProtoHeaderLen then
      PackUnpackU16(s.buffer[..ProtoHeaderLen]);
      assert s.buffer == s.buffer[..ProtoHeaderLen] + s.buffer[ProtoHeaderLen..];
      s.(headerLen := Some(UnpackU16(s.buffer)), buffer := s.buffer[ProtoHeaderLen..])
    else
      s
  }

  /** The loop of process_jsonheader: the first required key `h` does not contain raises. */
  function CheckRequiredHeaders(h: Json, keys: seq<string>): (o: Outcome)
    ensures h.JObj? ==> (o == Pass <==> forall k :: k in keys ==> k in h.fields)
    ensures h.JObj? && o.Fail? ==> o.error.MissingHeader? && o.error.name in keys && o.error.name !in h.fields
    ensures h.JObj? && o.Fail? ==>
      exists i :: 0 <= i < |keys| && keys[i] == o.error.name && forall j :: 0 <= j < i ==> keys[j] in h.fields
    ensures !(h.JObj? || h.JArr? || h.JStr?) && keys != [] ==> o == Fail(TypeError)
  {
    if keys == [] then Pass
    else match Contains(h, keys[0])
      case Err(e) => Fail(e)
      case Ok(present) =>
        if !present then Fail(MissingHeader(keys[0]))
        else CheckRequiredHeaders(h, keys[1..])
  }

  /**
   * process_jsonheader. With the length unknown the comparison `len(buf) >= None` raises; with
   * too few bytes nothing happens; otherwise the header is decoded from exactly `headerLen`
   * bytes, those bytes are dropped, and only then are the required keys checked.
   */
  function ProcessJsonheader(codec: JsonCodec, s: RecvState): (r: (RecvState, Outcome))
    ensures r.0.headerLen == s.headerLen && r.0.request == s.request
    ensures s.headerLen.None? ==> r == (s, Fail(TypeError))
    ensures s.headerLen.Some? && |s.buffer| < s.headerLen.value ==> r == (s, Pass)
    ensures s.headerLen.Some? && s.headerLen.value <= |s.buffer| ==>
      var n := s.headerLen.value;
      match codec.decode(s.buffer[..n], "utf-8")
      case None => r == (s, Fail(DecodeError))
      case Some(h) =>
        && r == (s.(header := h, buffer := s.buffer[n..]), CheckRequiredHeaders(h, RequiredHeaders))
        && s.buffer == s.buffer[..n] + r.0.buffer
    ensures r.1 == Pass && r.0.header.JObj? && r.0 != s ==>
      forall k :: k in RequiredHeaders ==> k in r.0.header.fields
  {
    match s.headerLen
    case None => (s, Fail(TypeError))
    case Some(n) =>
      if |s.buffer| < n then (s, Pass)
      else match codec.decode(s.buffer[..n], "utf-8")
        case None => (s, Fail(DecodeError))
        case Some(h) =>
          assert s.buffer == s.buffer[..n] + s.buffer[n..];
          (s.(header := h, buffer := s.buffer[n..]), CheckRequiredHeaders(h, RequiredHeaders))
  }

  /** `json.load` over `data` read as `encoding`; a decoding failure is one DecodeError. */
  function DecodeWith(codec: JsonCodec, data: Bytes, encoding: string): (r: Result<Json>)
    ensures r.Ok? <==> codec.decode(data, encoding).Some?
    ensures r.Ok? ==> Some(r.value) == codec.decode(data, encoding)
    ensures r.Err? ==> r.error == DecodeError
  {
    match codec.decode(data, encoding)
    case None => Err(DecodeError)
    case Some(v) => Ok(v)
  }

  /** `jsonheader["content-length"]` as the integer that `>=` and the slices use. */
  function ContentLength(header: Json): (r: Result<int>)
    ensures header.JObj? && "content-length" in header.fields && header.fields["content-length"].JInt? ==>
      r == Ok(header.fields["content-length"].i)
  {
    match Subscript(header, "content-length")
    case Err(e) => Err(e)
    case Ok(v) => AsInt(v)
  }

  /**
   * `_json_decode(data, jsonheader["content-encoding"])`. TextIOWrapper takes None as the
   * locale's encoding and raises TypeError for an encoding that is neither a string nor None.
   */
  function DecodeContent(codec: JsonCodec, header: Json, data: Bytes): (r: Result<Json>)
    ensures Subscript(header, "content-encoding").Err? ==> r == Err(Subscript(header, "content-encoding").error)
    ensures Subscript(header, "content-encoding").Ok? ==>
      var enc := Subscript(header, "content-encoding").value;
      if enc.JStr? || enc.JNull? then
        var name := if enc.JStr? then enc.s else codec.localeEncoding;
        && (r.Ok? <==> codec.decode(data, name).Some?)
        && (r.Ok? ==> Some(r.value) == codec.decode(data, name))
        && (r.Err? ==> r.error == DecodeError)
      else
        r == Err(TypeError)
  {
    match Subscript(header, "content-encoding")
    case Err(e) => Err(e)
    case Ok(JStr(enc)) => DecodeWith(codec, data, enc)
    case Ok(JNull) => DecodeWith(codec, data, codec.localeEncoding)
    case Ok(_) => Err(TypeError)
  }

  /**
   * process_request. Returns early while fewer than content-length bytes are buffered; then
   * slices the content off the front (Python slicing, so a negative or boolean length is
   * honoured as Python honours it) before it looks at the content type.
   */
  function ProcessRequest(codec: JsonCodec, s: RecvState): (r: (RecvState, Outcome))
    ensures r.0.headerLen == s.headerLen && r.0.header == s.header
    ensures ContentLength(s.header).Err? ==> r == (s, Fail(ContentLength(s.header).error))
    ensures ContentLength(s.header).Ok? ==>
      var n := ContentLength(s.header).value;
      if |s.buffer| < n then r == (s, Pass)
      else
        && r.0.buffer == PyDrop(s.buffer, n)
        && (r.0.request != s.request || r.1 == Pass ==>
              && Subscript(s.header, "content-type") == Ok(JStr("text/json"))
              && DecodeContent(codec, s.header, PyTake(s.buffer, n)) == Ok(r.0.request))
    ensures (ContentLength(s.header).Ok? && |s.buffer| >= ContentLength(s.header).value
             && Subscript(s.header, "content-type") == Ok(JStr("text/json"))) ==>
      var n := ContentLength(s.header).value;
      var body := DecodeContent(codec, s.header, PyTake(s.buffer, n));
      if body.Ok? then r == (s.(buffer := PyDrop(s.buffer, n), request := body.value), Pass)
      else r == (s.(buffer := PyDrop(s.buffer, n)), Fail(body.error))
  {
    match ContentLength(s.header)
    case Err(e) => (s, Fail(e))
    case Ok(n) =>
      if !(|s.buffer| >= n) then (s, Pass)
      else
        var data := PyTake(s.buffer, n);
        var s1 := s.(buffer := PyDrop(s.buffer, n));
        match Subscript(s.header, "content-type")
        case Err(e) => (s1, Fail(e))
        case Ok(ct) =>
          if ct == JStr("text/json") then
            match DecodeContent(codec, s.header, data)
            case Err(e) => (s1, Fail(e))
            case Ok(v) => (s1.(request := v), Pass)
          else
            (s1, Fail(UnsupportedContentType(PyStr(codec, ct))))
  }
  /** The request stage of `read`: it runs only once a truthy header is parsed and no request is. */
  function RequestStage(codec: JsonCodec, s: RecvState): (r: (RecvState, Outcome))
    ensures r.0.headerLen == s.headerLen && r.0.header == s.header
    ensures !Truthy(s.header) || s.request != JNull ==> r == (s, Pass)
  {
    if Truthy(s.header) && s.request == JNull then ProcessRequest(codec, s) else (s, Pass)
  }

  /** The header stage of `read`: it runs only once the length is known and no header is parsed. */
  function HeaderStage(codec: JsonCodec, s: RecvState): (r: (RecvState, Outcome))
    ensures r.0.headerLen == s.headerLen && r.0.request == s.request
    ensures s.headerLen.None? || s.header != JNull ==> r == (s, Pass)
  {
    if s.headerLen.Some? && s.header == JNull then ProcessJsonheader(codec, s) else (s, Pass)
  }

  /** The length stage of `read`: it runs only while the length is unknown. */
  function LengthStage(s: RecvState): (r: RecvState)
    ensures r.header == s.header && r.request == s.request
    ensures s.headerLen.Some? ==> r == s
  {
    if s.headerLen.None? then ProcessProtoheader(s) else s
  }

  /**
   * read: append what recv returned, then run the three stages in order, each only while its
   * target is still unset; an exception in one stage stops the others.
   */
  function Read(codec: JsonCodec, s: RecvState, data: Bytes): (r: (RecvState, Outcome))
    ensures s.headerLen.Some? && s.header != JNull && s.request != JNull ==> r == (s.(buffer := s.buffer + data), Pass)
    ensures s.headerLen.Some? && Truthy(s.header) && s.request == JNull ==>
      r == ProcessRequest(codec, s.(buffer := s.buffer + data))
  {
    var s1 := LengthStage(s.(buffer := s.buffer + data));
    var r2 := HeaderStage(codec, s1);
    if r2.1.Fail? then r2 else RequestStage(codec, r2.0)
  }

  /** `read` never overwrites a length, header or request it has already parsed. */
  lemma ReadNeverOverwrites(codec: JsonCodec, s: RecvState, data: Bytes)
    ensures var t := Read(codec, s, data).0;
      && (s.headerLen.Some? ==> t.headerLen == s.headerLen)
      && (s.header != JNull ==> t.header == s.header)
      && (s.request != JNull ==> t.request == s.request)
  {
    var s1 := LengthStage(s.(buffer := s.buffer + data));
    assert s.headerLen.Some? ==> s1.headerLen == s.headerLen;
    assert s1.header == s.header && s1.request == s.request;
    var r2 := HeaderStage(codec, s1);
    assert r2.0.headerLen == s1.headerLen && r2.0.request == s1.request;
  }

  lemma SuffixTrans(c: Bytes, b: Bytes, a: Bytes)
    requires IsSuffix(c, b) && IsSuffix(b, a)
    ensures IsSuffix(c, a)
  {
    assert a[|a| - |c|..] == a[|a| - |b|..][|b| - |c|..];
  }

  lemma LengthStageConsumesFromFront(s: RecvState)
    ensures IsSuffix(LengthStage(s).buffer, s.buffer)
  {
    if s.headerLen.None? && |s.buffer| >= ProtoHeaderLen {
      assert s.buffer == PackU16(LengthStage(s).headerLen.value) + LengthStage(s).buffer;
    }
  }

  lemma HeaderStageConsumesFromFront(codec: JsonCodec, s: RecvState)
    ensures IsSuffix(HeaderStage(codec, s).0.buffer, s.buffer)
  {
    var t := HeaderStage(codec, s).0;
    if t != s {
      assert s.buffer == s.buffer[..s.headerLen.value] + t.buffer;
    }
  }

  lemma RequestStageConsumesFromFront(codec: JsonCodec, s: RecvState)
    ensures IsSuffix(RequestStage(codec, s).0.buffer, s.buffer)
  {
    var t := RequestStage(codec, s).0;
    if t.buffer != s.buffer {
      assert PyTake(s.buffer, ContentLength(s.header).value) + t.buffer == s.buffer;
    }
  }

  /** What `read` leaves buffered is what arrived minus a prefix: bytes are only ever consumed from the front. */
  lemma ReadConsumesFromFront(codec: JsonCodec, s: RecvState, data: Bytes)
    ensures IsSuffix(Read(codec, s, data).0.buffer, s.buffer + data)
  {
    var s0 := s.(buffer := s.buffer + data);
    var s1 := LengthStage(s0);
    LengthStageConsumesFromFront(s0);
    var r2 := HeaderStage(codec, s1);
    HeaderStageConsumesFromFront(codec, s1);
    SuffixTrans(r2.0.buffer, s1.buffer, s0.buffer);
    if r2.1.Pass? {
      RequestStageConsumesFromFront(codec, r2.0);
      SuffixTrans(RequestStage(codec, r2.0).0.buffer, r2.0.buffer, s0.buffer);
    }
  }

  /** All the chunks, in order of arrival. */
  function Concat(chunks: seq<Bytes>): Bytes
  {
    if chunks == [] then [] else chunks[0] + Concat(chunks[1..])
  }

  /** `read` once per chunk, stopping at the first exception. */
  function ReadAll(codec: JsonCodec, s: RecvState, chunks: seq<Bytes>): (RecvState, Outcome)
    decreases |chunks|
  {
    if chunks == [] then (s, Pass)
    else
      var r1 := Read(codec, s, chunks[0]);
      if r1.1.Fail? then r1 else ReadAll(codec, r1.0, chunks[1..])
  }

  // ---------------------------------------------------------------- round trip

  /** The offset where the buffer starts once `p` stages are done: 0, after the prefix, after the header, at the end. */
  function Mark(p: nat, hlen: nat, total: nat): nat
    requires p <= 3
  {
    if p == 0 then 0 else if p == 1 then ProtoHeaderLen else if p == 2 then ProtoHeaderLen + hlen else total
  }

  /** How many stages a parser that has received the first `m` bytes of the frame has completed. */
  function Phase(m: nat, hlen: nat, total: nat): (p: nat)
    ensures p <= 3
  {
    if m < ProtoHeaderLen then 0
    else if m < ProtoHeaderLen + hlen then 1
    else if m < total then 2
    else 3
  }

  /** The parser state after `p` stages, with the first `m` bytes of `frame` received. */
  function Stage(frame: Bytes, hlen: nat, hdr: Json, v: Json, p: nat, m: nat): RecvState
    requires p <= 3 && Mark(p, hlen, |frame|) <= m <= |frame|
  {
    RecvState(frame[Mark(p, hlen, |frame|)..m],
              if p >= 1 then Some(hlen) else None,
              if p >= 2 then hdr else JNull,
              if p >= 3 then v else JNull)
  }

  /** The frame a text/json message with body `v` travels in, and its parts. */
  ghost predicate Framed(codec: JsonCodec, byteorder: string, v: Json, frame: Bytes, hlen: nat, hdr: Json)
  {
    && Lawful(codec)
    && hdr == MessageHeader(byteorder, "text/json", "utf-8", |codec.encode(v)|)
    && hlen == |codec.encode(hdr)|
    && CreateMessage(codec, byteorder, codec.encode(v), "text/json", "utf-8") == Ok(frame)
  }

  lemma ProtoheaderStage(codec: JsonCodec, byteorder: string, v: Json, frame: Bytes, hlen: nat, hdr: Json, m: nat)
    requires Framed(codec, byteorder, v, frame, hlen, hdr) && m <= |frame|
    ensures ProcessProtoheader(Stage(frame, hlen, hdr, v, 0, m))
         == Stage(frame, hlen, hdr, v, if m >= ProtoHeaderLen then 1 else 0, m)
  {
    if m >= ProtoHeaderLen {
      var s := Stage(frame, hlen, hdr, v, 0, m);
      assert s.buffer[..ProtoHeaderLen] == frame[..ProtoHeaderLen];
      assert UnpackU16(s.buffer) == UnpackU16(frame) == hlen;
    }
  }

  lemma JsonheaderStage(codec: JsonCodec, byteorder: string, v: Json, frame: Bytes, hlen: nat, hdr: Json, m: nat)
    requires Framed(codec, byteorder, v, frame, hlen, hdr) && ProtoHeaderLen <= m <= |frame|
    ensures ProcessJsonheader(codec, Stage(frame, hlen, hdr, v, 1, m))
         == (Stage(frame, hlen, hdr, v, if m >= ProtoHeaderLen + hlen then 2 else 1, m), Pass)
  {
    var s := Stage(frame, hlen, hdr, v, 1, m);
    if m >= ProtoHeaderLen + hlen {
      assert s.buffer[..hlen] == frame[ProtoHeaderLen..ProtoHeaderLen + hlen] == codec.encode(hdr);
      assert codec.decode(codec.encode(hdr), "utf-8") == Some(hdr);
      assert s.buffer[hlen..] == frame[ProtoHeaderLen + hlen..m];
      assert CheckRequiredHeaders(hdr, RequiredHeaders) == Pass;
    }
  }

  lemma RequestStageDone(codec: JsonCodec, byteorder: string, v: Json, frame: Bytes, hlen: nat, hdr: Json, m: nat)
    requires Framed(codec, byteorder, v, frame, hlen, hdr) && ProtoHeaderLen + hlen <= m <= |frame|
    ensures RequestStage(codec, Stage(frame, hlen, hdr, v, 2, m))
         == (Stage(frame, hlen, hdr, v, if m == |frame| then 3 else 2, m), Pass)
  {
    var s := Stage(frame, hlen, hdr, v, 2, m);
    var content := codec.encode(v);
    assert |frame| == ProtoHeaderLen + hlen + |content|;
    assert ContentLength(hdr) == Ok(|content|);
    if m == |frame| {
      assert s.buffer == content;
      assert PyTake(s.buffer, |content|) == content;
      assert codec.decode(codec.encode(v), "utf-8") == Some(v);
    }
  }

  lemma RequestStageRepeat(codec: JsonCodec, byteorder: string, v: Json, frame: Bytes, hlen: nat, hdr: Json)
    requires Framed(codec, byteorder, v, frame, hlen, hdr)
    ensures RequestStage(codec, Stage(frame, hlen, hdr, v, 3, |frame|)) == (Stage(frame, hlen, hdr, v, 3, |frame|), Pass)
  {
    var s := Stage(frame, hlen, hdr, v, 3, |frame|);
    var content := codec.encode(v);
    if v == JNull && content == [] {
      assert ContentLength(hdr) == Ok(0);
      assert codec.decode(codec.encode(v), "utf-8") == Some(v);
    }
  }

  lemma SliceJoin(s: Bytes, a: nat, b: nat, c: nat)
    requires a <= b <= c <= |s|
    ensures s[a..b] + s[b..c] == s[a..c]
  {
  }

  /** One `read` of the next bytes of the frame moves the parser from one prefix's state to the next one's. */
  lemma ReadNextBytes(codec: JsonCodec, byteorder: string, v: Json, frame: Bytes, hlen: nat, hdr: Json,
                      m: nat, m': nat)
    requires Framed(codec, byteorder, v, frame, hlen, hdr) && m <= m' <= |frame|
    ensures Read(codec, Stage(frame, hlen, hdr, v, Phase(m, hlen, |frame|), m), frame[m..m'])
         == (Stage(frame, hlen, hdr, v, Phase(m', hlen, |frame|), m'), Pass)
  {
    var n := |frame|;
    assert n == ProtoHeaderLen + hlen + |codec.encode(v)|;
    var p := Phase(m, hlen, n);
    var s := Stage(frame, hlen, hdr, v, p, m);
    var s0 := s.(buffer := s.buffer + frame[m..m']);
    assert s0 == Stage(frame, hlen, hdr, v, p, m') by {
      SliceJoin(frame, Mark(p, hlen, n), m, m');
    }
    var q1 := if p == 0 then (if m' >= ProtoHeaderLen then 1 else 0) else p;
    var s1 := LengthStage(s0);
    if p == 0 {
      ProtoheaderStage(codec, byteorder, v, frame, hlen, hdr, m');
    }
    assert s1 == Stage(frame, hlen, hdr, v, q1, m');
    var q2 := if q1 == 1 then (if m' >= ProtoHeaderLen + hlen then 2 else 1) else q1;
    var r2 := HeaderStage(codec, s1);
    if q1 == 1 {
      JsonheaderStage(codec, byteorder, v, frame, hlen, hdr, m');
    }
    assert r2 == (Stage(frame, hlen, hdr, v, q2, m'), Pass);
    var r3 := RequestStage(codec, r2.0);
    if q2 == 2 {
      RequestStageDone(codec, byteorder, v, frame, hlen, hdr, m');
    } else if q2 == 3 {
      RequestStageRepeat(codec, byteorder, v, frame, hlen, hdr);
    }
    assert r3 == (Stage(frame, hlen, hdr, v, Phase(m', hlen, n), m'), Pass);
  }

  lemma {:induction false} ReadRest(codec: JsonCodec, byteorder: string, v: Json, frame: Bytes, hlen: nat, hdr: Json,
                                    m: nat, chunks: seq<Bytes>)
    requires Framed(codec, byteorder, v, frame, hlen, hdr) && m <= |frame|
    requires Concat(chunks) == frame[m..]
    ensures ReadAll(codec, Stage(frame, hlen, hdr, v, Phase(m, hlen, |frame|), m), chunks)
         == (Stage(frame, hlen, hdr, v, 3, |frame|), Pass)
    decreases chunks
  {
    var s := Stage(frame, hlen, hdr, v, Phase(m, hlen, |frame|), m);
    if chunks == [] {
      assert m == |frame|;
    } else {
      var m' := m + |chunks[0]|;
      assert frame[m..] == chunks[0] + Concat(chunks[1..]);
      assert chunks[0] == frame[m..m'];
      ReadNextBytes(codec, byteorder, v, frame, hlen, hdr, m, m');
      assert Concat(chunks[1..]) == frame[m'..];
      ReadRest(codec, byteorder, v, frame, hlen, hdr, m', chunks[1..]);
    }
  }

  /**
   * Round trip: a fresh parser fed a text/json frame built by _create_message, split into any
   * chunks, raises nothing and ends with the header and the request recovered and nothing left over.
   */
  lemma RoundTrip(codec: JsonCodec, byteorder: string, v: Json, chunks: seq<Bytes>)
    requires Lawful(codec)
    requires CreateMessage(codec, byteorder, codec.encode(v), "text/json", "utf-8").Ok?
    requires Concat(chunks) == CreateMessage(codec, byteorder, codec.encode(v), "text/json", "utf-8").value
    ensures ReadAll(codec, Initial(), chunks)
         == (RecvState([], Some(|codec.encode(MessageHeader(byteorder, "text/json", "utf-8", |codec.encode(v)|))|),
                       MessageHeader(byteorder, "text/json", "utf-8", |codec.encode(v)|), v),
             Pass)
  {
    var frame := Concat(chunks);
    var hdr := MessageHeader(byteorder, "text/json", "utf-8", |codec.encode(v)|);
    var hlen := |codec.encode(hdr)|;
    assert Framed(codec, byteorder, v, frame, hlen, hdr);
    assert Stage(frame, hlen, hdr, v, 0, 0) == Initial();
    ReadRest(codec, byteorder, v, frame, hlen, hdr, 0, chunks);
    assert Stage(frame, hlen, hdr, v, 3, |frame|).buffer == [];
  }
}
