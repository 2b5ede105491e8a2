/**
 * The per-connection `Message` object of libserver.py: its receive and send buffers, the
 * parsed length, header and request, and the methods that move bytes between them. The
 * receiving methods are proved to perform the steps of module Framing in place.
 */
module LibServer {
  import opened Wrappers
  import opened PyJson
  import Framing

  /** selectors.EVENT_READ and selectors.EVENT_WRITE. */
  const EventRead: bv8 := 1
  const EventWrite: bv8 := 2

  /** The mode mapping of _set_selector_events_mask; any other mode raises ValueError. */
  function EventsMask(mode: string): (r: Result<bv8>)
    ensures r.Ok? <==> mode == "r" || mode == "w" || mode == "rw"
    ensures r.Err? ==> r.error == InvalidEventsMode(mode)
    ensures r.Ok? ==>
      && r.value & !(EventRead | EventWrite) == 0
      && (r.value & EventRead != 0 <==> 'r' in mode)
      && (r.value & EventWrite != 0 <==> 'w' in mode)
  {
    if mode == "r" then Ok(EventRead)
    else if mode == "w" then Ok(EventWrite)
    else if mode == "rw" then Ok(EventRead | EventWrite)
    else Err(InvalidEventsMode(mode))
  }

  /** The banner sent in reply to a "join" request. */
  const WelcomeMessage: string :=
    "\n"
    + "_______________________________________________________\n"
    + "|                                                     |\n"
    + "|          Welcome to Colossal Connect Four!          |               \n"
    + "|    A game of wits, strategy, and colossal fun!      |\n"
    + "|                                                     |\n"
    + "|                                                     |\n"
    + "|                                                     |\n"
    + "|_____________________________________________________|\n"
    + "            "

  /** The reply dictionary of _create_response_json_content; a request that is not a dict has no `.get`. */
  function ResponseBody(codec: JsonCodec, request: Json): (r: Result<Json>)
    ensures r.Ok? <==> request.JObj?
    ensures r.Err? ==> r.error == AttributeError
    ensures r.Ok? ==> r.value.JObj? && r.value.fields.Keys == {"result"} && r.value.fields["result"].JStr?
    ensures r.Ok? ==>
      (r.value.fields["result"] == JStr(WelcomeMessage) <==> "action" in request.fields && request.fields["action"] == JStr("join"))
    ensures request.JObj? && !("action" in request.fields && request.fields["action"] == JStr("join")) ==>
      var action := if "action" in request.fields then request.fields["action"] else JNull;
      r == Ok(JObj(map["result" := JStr("Error: invalid action \"" + PyStr(codec, action) + "\".")]))
  {
    match Get(request, "action", JNull)
    case Err(e) => Err(e)
    case Ok(action) =>
      if action == JStr("join") then Ok(JObj(map["result" := JStr(WelcomeMessage)]))
      else
        var text := "Error: invalid action \"" + PyStr(codec, action) + "\".";
        assert text[0] != WelcomeMessage[0];
        Ok(JObj(map["result" := JStr(text)]))
  }

  /** The keyword arguments _create_response_json_content hands to _create_message. */
  datatype Response = Response(contentBytes: Bytes, contentType: string, contentEncoding: string)

  function CreateResponseJsonContent(codec: JsonCodec, request: Json): (r: Result<Response>)
    ensures r.Ok? <==> ResponseBody(codec, request).Ok?
    ensures r.Ok? ==> r.value.contentType == "text/json" && r.value.contentEncoding == "utf-8"
    ensures r.Ok? && Lawful(codec) ==> codec.decode(r.value.contentBytes, "utf-8") == Some(ResponseBody(codec, request).value)
  {
    match ResponseBody(codec, request)
    case Err(e) => Err(e)
    case Ok(body) => Ok(Response(codec.encode(body), "text/json", "utf-8"))
  }

  /** The frame create_response appends, or the exception it raises before appending anything. */
  function ResponseFrame(codec: JsonCodec, byteorder: string, header: Json, request: Json): (r: Result<Bytes>)
    ensures r.Ok? ==> Subscript(header, "content-type") == Ok(JStr("text/json")) && request.JObj?
    ensures Subscript(header, "content-type").Ok? && Subscript(header, "content-type") != Ok(JStr("text/json")) ==>
      r == Err(UnsupportedContentType(PyStr(codec, Subscript(header, "content-type").value)))
    ensures Subscript(header, "content-type").Err? ==> r == Err(Subscript(header, "content-type").error)
    ensures Subscript(header, "content-type") == Ok(JStr("text/json")) && !request.JObj? ==> r == Err(AttributeError)
    ensures Subscript(header, "content-type") == Ok(JStr("text/json")) && request.JObj? ==>
      r == Framing.CreateMessage(codec, byteorder, codec.encode(ResponseBody(codec, request).value), "text/json", "utf-8")
  {
    match Subscript(header, "content-type")
    case Err(e) => Err(e)
    case Ok(ct) =>
      if ct == JStr("text/json") then
        match CreateResponseJsonContent(codec, request)
        case Err(e) => Err(e)
        case Ok(resp) => Framing.CreateMessage(codec, byteorder, resp.contentBytes, resp.contentType, resp.contentEncoding)
      else
        Err(UnsupportedContentType(PyStr(codec, ct)))
  }

  /** A response frame, read back by a fresh parser in any split, yields the reply dictionary as its request. */
  lemma ResponseRoundTrip(codec: JsonCodec, byteorder: string, header: Json, request: Json, chunks: seq<Bytes>)
    requires Lawful(codec)
    requires ResponseFrame(codec, byteorder, header, request).Ok?
    requires Framing.Concat(chunks) == ResponseFrame(codec, byteorder, header, request).value
    ensures var (t, o) := Framing.ReadAll(codec, Framing.Initial(), chunks);
      && o == Pass && t.buffer == [] && ResponseBody(codec, request) == Ok(t.request)
  {
    var body := ResponseBody(codec, request).value;
    assert ResponseFrame(codec, byteorder, header, request)
        == Framing.CreateMessage(codec, byteorder, codec.encode(body), "text/json", "utf-8");
    Framing.RoundTrip(codec, byteorder, body, chunks);
  }

  /** How many bytes a send moves when the socket accepts at most `room` of the `pending` ones. */
  function SentCount(room: nat, pending: nat): (k: nat)
    ensures k <= pending && k <= room
    ensures k == room || k == pending
  {
    if room < pending then room else pending
  }

  /**
   * The send buffer after one sock.send: `room` is how many bytes the socket takes (None when
   * send raises, which _write swallows, leaving the buffer as it was).
   */
  function Drain(buffer: Bytes, room: Option<nat>): (r: Bytes)
    ensures room.None? ==> r == buffer
    ensures room.Some? ==> buffer == buffer[..SentCount(room.value, |buffer|)] + r
  {
    match room
    case None => buffer
    case Some(k) => buffer[SentCount(k, |buffer|)..]
  }

  class Message {
    const codec: JsonCodec
    const byteorder: string          // sys.byteorder
    var recvBuffer: Bytes            // _recv_buffer
    var sendBuffer: Bytes            // _send_buffer
    var jsonheaderLen: Option<nat>   // _jsonheader_len
    var jsonheader: Json             // jsonheader, JNull while None
    var request: Json                // request, JNull while None
    var responseCreated: bool        // response_created
    var closed: bool                 // close() has run

    /** The receiving fields, as the steps of module Framing see them. */
    function RecvView(): Framing.RecvState
      reads this
    {
      Framing.RecvState(recvBuffer, jsonheaderLen, jsonheader, request)
    }

    /** A parsed header length came from two bytes. */
    ghost predicate Valid()
      reads this
    {
      jsonheaderLen.Some? ==> jsonheaderLen.value < Framing.MaxHeaderLen
    }

    constructor (codec: JsonCodec, byteorder: string)
      ensures Valid() && RecvView() == Framing.Initial()
      ensures this.codec == codec && this.byteorder == byteorder
      ensures sendBuffer == [] && !responseCreated && !closed
    {
      this.codec := codec;
      this.byteorder := byteorder;
      recvBuffer := [];
      sendBuffer := [];
      jsonheaderLen := None;
      jsonheader := JNull;
      request := JNull;
      responseCreated := false;
      closed := false;
    }

    /** _read: `data` is what sock.recv returned; empty when the peer closed or recv raised. */
    method Receive(data: Bytes) returns (ok: bool)
      modifies this`recvBuffer
      ensures ok == (data != [])
      ensures recvBuffer == old(recvBuffer) + data
    {
      if data != [] {
        recvBuffer := recvBuffer + data;
        ok := true;
      } else {
        ok := false;
      }
    }

    /**
     * _write: send what the socket accepts and drop it from the front of the send buffer. Once
     * the buffer is empty the selector is switched back to reading; `modifyRaises` says whether
     * that switch raises, which reports failure like a raised send.
     */
    method Transmit(room: Option<nat>, modifyRaises: bool) returns (ok: bool)
      modifies this`sendBuffer
      ensures ok <==> room.Some? && !(sendBuffer == [] && modifyRaises)
      ensures sendBuffer == Drain(old(sendBuffer), room)
    {
      match room
      case None =>
        ok := false;
      case Some(accepted) =>
        var sent := SentCount(accepted, |sendBuffer|);
        sendBuffer := sendBuffer[sent..];
        ok := !(sendBuffer == [] && modifyRaises);
    }

    method Close()
      modifies this`closed
      ensures closed
    {
      closed := true;
    }

    /**
     * process_events: receive on a read event (closing when nothing came), send on a write
     * event when something is pending (closing when send, or the switch back to reading once
     * the buffer is drained, raised). It returns nothing.
     */
    method ProcessEvents(mask: bv8, data: Bytes, room: Option<nat>, modifyRaises: bool)
      modifies this`recvBuffer, this`sendBuffer, this`closed
      ensures recvBuffer == if mask & EventRead != 0 then old(recvBuffer) + data else old(recvBuffer)
      ensures var writing := mask & EventWrite != 0 && old(sendBuffer) != [];
        && sendBuffer == (if writing then Drain(old(sendBuffer), room) else old(sendBuffer))
        && closed == (old(closed) || (mask & EventRead != 0 && data == [])
                      || (writing && (room.None? || (sendBuffer == [] && modifyRaises))))
    {
      if mask & EventRead != 0 {
        var ok := Receive(data);
        if !ok {
          Close();
        }
      }
      if mask & EventWrite != 0 && sendBuffer != [] {
        var ok := Transmit(room, modifyRaises);
        if !ok {
          Close();
        }
      }
    }

    /** process_protoheader. */
    method ProcessProtoheader()
      requires Valid()
      modifies this`recvBuffer, this`jsonheaderLen
      ensures Valid()
      ensures RecvView() == Framing.ProcessProtoheader(old(RecvView()))
    {
      if |recvBuffer| >= Framing.ProtoHeaderLen {
        jsonheaderLen := Some(Framing.UnpackU16(recvBuffer[..Framing.ProtoHeaderLen]));
        recvBuffer := recvBuffer[Framing.ProtoHeaderLen..];
      }
    }

    /** process_jsonheader, with its loop over the required keys. */
    method ProcessJsonheader() returns (o: Outcome)
      modifies this`recvBuffer, this`jsonheader
      ensures (RecvView(), o) == Framing.ProcessJsonheader(codec, old(RecvView()))
    {
      if jsonheaderLen.None? {
        return Fail(TypeError);
      }
      var hdrlen := jsonheaderLen.value;
      if |recvBuffer| >= hdrlen {
        var decoded := codec.decode(recvBuffer[..hdrlen], "utf-8");
        if decoded.None? {
          return Fail(DecodeError);
        }
        jsonheader := decoded.value;
        recvBuffer := recvBuffer[hdrlen..];
        var i := 0;
        while i < |Framing.RequiredHeaders|
          invariant 0 <= i <= |Framing.RequiredHeaders|
          invariant Framing.CheckRequiredHeaders(jsonheader, Framing.RequiredHeaders)
                 == Framing.CheckRequiredHeaders(jsonheader, Framing.RequiredHeaders[i..])
        {
          var reqhdr := Framing.RequiredHeaders[i];
          var present := Contains(jsonheader, reqhdr);
          if present.Err? {
            return Fail(present.error);
          }
          if !present.value {
            return Fail(MissingHeader(reqhdr));
          }
          assert Framing.RequiredHeaders[i..][1..] == Framing.RequiredHeaders[i + 1..];
          i := i + 1;
        }
      }
      return Pass;
    }

    /** process_request. */
    method ProcessRequest() returns (o: Outcome)
      modifies this`recvBuffer, this`request
      ensures (RecvView(), o) == Framing.ProcessRequest(codec, old(RecvView()))
    {
      var contentLen := Framing.ContentLength(jsonheader);
      if contentLen.Err? {
        return Fail(contentLen.error);
      }
      if !(|recvBuffer| >= contentLen.value) {
        return Pass;
      }
      var data := Framing.PyTake(recvBuffer, contentLen.value);
      recvBuffer := Framing.PyDrop(recvBuffer, contentLen.value);
      var contentType := Subscript(jsonheader, "content-type");
      if contentType.Err? {
        return Fail(contentType.error);
      }
      if contentType.value == JStr("text/json") {
        var decoded := Framing.DecodeContent(codec, jsonheader, data);
        if decoded.Err? {
          return Fail(decoded.error);
        }
        request := decoded.value;
      } else {
        return Fail(UnsupportedContentType(PyStr(codec, contentType.value)));
      }
      return Pass;
    }

    /** read: receive, then the three guarded stages in order. */
    method Read(data: Bytes) returns (o: Outcome)
      requires Valid()
      modifies this`recvBuffer, this`jsonheaderLen, this`jsonheader, this`request
      ensures Valid()
      ensures (RecvView(), o) == Framing.Read(codec, old(RecvView()), data)
    {
      var _ := Receive(data);
      if jsonheaderLen.None? {
        ProcessProtoheader();
      }
      if jsonheaderLen.Some? {
        if jsonheader == JNull {
          o := ProcessJsonheader();
          if o.Fail? {
            return;
          }
        }
      }
      if Truthy(jsonheader) {
        if request == JNull {
          o := ProcessRequest();
          return;
        }
      }
      o := Pass;
    }

    /** create_response: append one response frame and remember that it was made. */
    method CreateResponse() returns (o: Outcome)
      modifies this`sendBuffer, this`responseCreated
      ensures match ResponseFrame(codec, byteorder, jsonheader, request)
        case Ok(frame) => o == Pass && sendBuffer == old(sendBuffer) + frame && responseCreated
        case Err(e) => o == Fail(e) && sendBuffer == old(sendBuffer) && responseCreated == old(responseCreated)
    {
      var frame := ResponseFrame(codec, byteorder, jsonheader, request);
      if frame.Err? {
        return Fail(frame.error);
      }
      responseCreated := true;
      sendBuffer := sendBuffer + frame.value;
      o := Pass;
    }

    /** write: build the response once per parsed request, then send what the socket takes. */
    method Write(room: Option<nat>, modifyRaises: bool) returns (o: Outcome)
      modifies this`sendBuffer, this`responseCreated
      ensures var due := Truthy(request) && !old(responseCreated);
        var frame := ResponseFrame(codec, byteorder, jsonheader, request);
        if due && frame.Err? then
          o == Fail(frame.error) && sendBuffer == old(sendBuffer) && responseCreated == old(responseCreated)
        else
          && o == Pass
          && sendBuffer == Drain(old(sendBuffer) + (if due then frame.value else []), room)
          && responseCreated == (old(responseCreated) || due)
    {
      if Truthy(request) {
        if !responseCreated {
          o := CreateResponse();
          if o.Fail? {
            return;
          }
        }
      }
      var _ := Transmit(room, modifyRaises);
      o := Pass;
    }

    /** send_json: append the encoded content, unframed. */
    method SendJson(content: Json)
      modifies this`sendBuffer
      ensures sendBuffer == old(sendBuffer) + codec.encode(content)
    {
      sendBuffer := sendBuffer + codec.encode(content);
    }
  }
}
