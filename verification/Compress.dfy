/**
 * The compress middleware of internal/api/compress.go:97-258. `GzipWriter` holds a JSON answer
 * back until it knows it is at least GZIP_MIN_SIZE long and then gzips it; everything else goes
 * straight through. `Response` is the http.ResponseWriter underneath. gzip itself (RFC 1952) is
 * a `Codec`: whatever it writes for the chunks it is given, unzipping gives their concatenation.
 */
module Compress {
  import opened Basics
  import opened HttpText
  import opened TextLaws

  const GZIP_MIN_SIZE: int := 1024
  const ACCEPT_ENCODING: string := "Accept-Encoding"

  datatype Codec = Codec(zip: seq<Bytes> -> Bytes, unzip: Bytes -> Bytes) {
    ghost predicate Sound() {
      forall chunks: seq<Bytes> :: unzip(zip(chunks)) == Flatten(chunks)
    }
  }

  /** The response headers that matter here; "" and None are absent ones. */
  datatype Header = Header(contentType: string, contentEncoding: string, contentLength: Option<nat>,
                           etag: string, vary: seq<string>)

  function IsJSON(h: Header): bool {
    EqualFold(TrimSpace(Before(h.contentType, ';')), "application/json")
  }

  /** RFC 9110: neither 204 nor 304 carries a body. */
  predicate BodyAllowed(code: int) {
    code != 204 && code != 304
  }

  datatype Sent = Sent(status: int, header: Header)

  /** The writer underneath: the first final status sends the headers as they are then. */
  class Response {
    var header: Header
    var informational: seq<int>  // 1xx statuses, before the answer
    var finals: seq<int>         // every final status it was given
    var sent: Option<Sent>
    var body: Bytes

    constructor (h: Header)
      ensures header == h && informational == [] && finals == [] && sent == None && body == []
    {
      header, informational, finals, sent, body := h, [], [], None, [];
    }

    method WriteHeader(code: int)
      modifies this`informational, this`finals, this`sent
      ensures code < 200 ==> finals == old(finals) && sent == old(sent)
      ensures code >= 200 ==> finals == old(finals) + [code] && informational == old(informational)
      ensures code >= 200 ==> sent == if old(sent).Some? then old(sent) else Some(Sent(code, header))
    {
      if code < 200 {
        if sent.None? {
          informational := informational + [code];
        }
        return;
      }
      finals := finals + [code];
      if sent.None? {
        sent := Some(Sent(code, header));
      }
    }

    method Write(p: Bytes)
      requires sent.Some?
      modifies this`body
      ensures body == if BodyAllowed(sent.value.status) then old(body) + p else old(body)
    {
      if BodyAllowed(sent.value.status) {
        body := body + p;
      }
    }
  }

  // ---------------------------------------------------------------- what a handler does

  /** What a handler does with the writer, its headers set: statuses and pieces of the body. */
  datatype Act = Status(code: int) | Piece(p: Bytes)

  /** The answer's status: the first that is not informational, 200 for a body without one. */
  function FirstFinal(acts: seq<Act>): Option<int> {
    if acts == [] then None
    else
      var before := FirstFinal(acts[..|acts| - 1]);
      if before.Some? then before
      else match acts[|acts| - 1]
        case Status(code) => if code < 200 then None else Some(code)
        case Piece(_) => Some(200)
  }

  function Payload(acts: seq<Act>): Bytes {
    if acts == [] then []
    else
      Payload(acts[..|acts| - 1]) + match acts[|acts| - 1] { case Status(_) => [] case Piece(p) => p }
  }

  lemma {:induction false} Acted(acts: seq<Act>, act: Act)
    ensures FirstFinal(acts + [act]) ==
      if FirstFinal(acts).Some? then FirstFinal(acts)
      else match act { case Status(code) => if code < 200 then None else Some(code) case Piece(_) => Some(200) }
    ensures Payload(acts + [act]) == Payload(acts) + match act { case Status(_) => [] case Piece(p) => p }
  {
    assert (acts + [act])[..|acts|] == acts;
  }

  lemma {:induction false} NoStatusNoBody(acts: seq<Act>)
    ensures FirstFinal(acts).None? ==> Payload(acts) == []
  {
    if acts != [] {
      NoStatusNoBody(acts[..|acts| - 1]);
    }
  }

  // ---------------------------------------------------------- what the client is to get

  /** JSON the client may have gzipped: with a body, and no coding or validator of the handler's own. */
  predicate Eligible(h: Header, accept: bool, code: int) {
    IsJSON(h) && accept && BodyAllowed(code) && h.contentEncoding == "" && h.etag == ""
  }

  /** h as every JSON answer carries it: naming Accept-Encoding in Vary. */
  ghost function Varied(h: Header): Header {
    if IsJSON(h) then h.(vary := AddVary(h.vary, ACCEPT_ENCODING)) else h
  }

  /** The headers of an answer of n bytes. */
  ghost function Outgoing(h: Header, accept: bool, code: int, n: nat): Header {
    var v := Varied(h);
    if !Eligible(h, accept, code) then v
    else if n >= GZIP_MIN_SIZE then v.(contentEncoding := "gzip", contentLength := None)
    else v.(contentLength := Some(v.contentLength.GetOr(n)))
  }

  /** The specification of a whole answer, whatever the pieces it was written in. */
  ghost predicate Delivered(codec: Codec, h: Header, accept: bool, acts: seq<Act>, finals: seq<int>,
                            sent: Option<Sent>, body: Bytes) {
    match FirstFinal(acts)
    case None => finals == [] && sent == None && body == []
    case Some(code) =>
      var payload := Payload(acts);
      && finals == [code]
      && sent == Some(Sent(code, Outgoing(h, accept, code, |payload|)))
      && if Eligible(h, accept, code) && |payload| >= GZIP_MIN_SIZE then codec.unzip(body) == payload
         else body == if BodyAllowed(code) then payload else []
  }

  datatype Mode = Undecided | Identity | Gzip

  class GzipWriter {
    const codec: Codec
    const rw: Response
    const accept: bool
    var status: int
    var mode: Mode
    var held: Bytes
    var zw: seq<Bytes>  // what the compressor was given
    ghost const h0: Header
    ghost var acts: seq<Act>

    /** Nothing but informational statuses yet. */
    ghost predicate Fresh()
      reads this, rw
    {
      && status == 0 && mode == Undecided && held == [] && zw == []
      && rw.header == h0 && rw.finals == [] && rw.sent == None && rw.body == []
    }

    /** A final status is known, and payload was written since. */
    ghost predicate Holds(payload: Bytes)
      reads this, rw
    {
      && status >= 200
      && match mode
         case Identity =>
           && !Eligible(h0, accept, status) && held == []
           && rw.header == Varied(h0) && rw.finals == [status] && rw.sent == Some(Sent(status, Varied(h0)))
           && rw.body == (if BodyAllowed(status) then payload else [])
         case Gzip =>
           && Eligible(h0, accept, status) && |payload| >= GZIP_MIN_SIZE && Flatten(zw) == payload
           && rw.finals == [status] && rw.body == []
           && rw.sent == Some(Sent(status, Outgoing(h0, accept, status, GZIP_MIN_SIZE)))
         case Undecided =>
           && Eligible(h0, accept, status) && |payload| < GZIP_MIN_SIZE && held == payload && zw == []
           && rw.header == Varied(h0) && rw.finals == [] && rw.sent == None && rw.body == []
    }

    /** What was done so far settled this status and wrote this body. */
    ghost predicate Stands(final: Option<int>, payload: Bytes)
      reads this, rw
    {
      match final
      case None => Fresh() && payload == []
      case Some(code) => code == status && Holds(payload)
    }

    ghost predicate Valid()
      reads this, rw
    {
      Stands(FirstFinal(acts), Payload(acts))
    }

    constructor (codec: Codec, rw: Response, accept: bool)
      requires rw.finals == [] && rw.sent == None && rw.body == []
      ensures Valid() && acts == [] && this.codec == codec && this.rw == rw && this.accept == accept
      ensures h0 == rw.header
    {
      this.codec, this.rw, this.accept := codec, rw, accept;
      status, mode, held, zw := 0, Undecided, [], [];
      h0, acts := rw.header, [];
    }

    method WriteHeader(code: int)
      requires Valid()
      modifies this, rw
      ensures Valid() && acts == old(acts) + [Status(code)]
    {
      Acted(acts, Status(code));
      Settle(code, FirstFinal(acts), Payload(acts));
      acts := acts + [Status(code)];
    }

    /** An informational status goes through and is not the answer; the first other one is. */
    method Settle(code: int, ghost final: Option<int>, ghost payload: Bytes)
      requires Stands(final, payload)
      modifies this`status, this`mode, rw
      ensures Stands(if final.None? && code >= 200 then Some(code) else final, payload)
    {
      if code < 200 {
        rw.WriteHeader(code);
        return;
      }
      if status != 0 {
        return;
      }
      Begin(code);
    }

    /** The final status: anything but an eligible answer is let through from here on. */
    method Begin(code: int)
      requires Fresh() && code >= 200
      modifies this`status, this`mode, rw
      ensures Holds([]) && status == code
    {
      status := code;
      if !IsJSON(rw.header) {
        mode := Identity;
        rw.WriteHeader(code);
        return;
      }
      rw.header := rw.header.(vary := AddVary(rw.header.vary, ACCEPT_ENCODING));
      if !accept || !BodyAllowed(code) || rw.header.contentEncoding != "" || rw.header.etag != "" {
        mode := Identity;
        rw.WriteHeader(code);
      }
    }

    method Write(p: Bytes)
      requires Valid()
      modifies this, rw
      ensures Valid() && acts == old(acts) + [Piece(p)]
    {
      Acted(acts, Piece(p));
      Add(p, FirstFinal(acts), Payload(acts));
      acts := acts + [Piece(p)];
    }

    /** A piece settles the status when nothing did before. */
    method Add(p: Bytes, ghost final: Option<int>, ghost payload: Bytes)
      requires Stands(final, payload)
      modifies this`status, this`mode, this`held, this`zw, rw
      ensures Stands(Some(final.GetOr(200)), payload + p)
    {
      if status == 0 {
        Begin(200);
      }
      Append(p, payload);
    }

    /** One piece more of an answer whose status is known. */
    method Append(p: Bytes, ghost payload: Bytes)
      requires Holds(payload)
      modifies this`mode, this`held, this`zw, rw
      ensures Holds(payload + p) && status == old(status)
    {
      match mode {
        case Identity =>
          rw.Write(p);
          return;
        case Gzip =>
          FlattenAppend(zw, p);
          zw := zw + [p];
          return;
        case Undecided =>
      }
      if |held| == 0 && |p| >= GZIP_MIN_SIZE {
        StartGzip();
        Compress(p);
        assert payload + p == p;
        return;
      }
      held := held + p;
      if |held| >= GZIP_MIN_SIZE {
        StartGzip();
        Compress(held);
        held := [];
      }
    }

    /** The first piece the compressor is given. */
    method Compress(p: Bytes)
      requires zw == []
      modifies this`zw
      ensures Flatten(zw) == p
    {
      FlattenAppend(zw, p);
      zw := zw + [p];
    }

    method StartGzip()
      requires mode == Undecided && Eligible(h0, accept, status) && status >= 200
      requires rw.header == Varied(h0) && rw.finals == [] && rw.sent == None
      modifies this`mode, rw`header, rw`informational, rw`finals, rw`sent
      ensures mode == Gzip && rw.finals == [status]
      ensures rw.sent == Some(Sent(status, Outgoing(h0, accept, status, GZIP_MIN_SIZE)))
    {
      mode := Gzip;
      rw.header := rw.header.(contentEncoding := "gzip", contentLength := None);
      rw.WriteHeader(status);
    }

    method Do(act: Act)
      requires Valid()
      modifies this, rw
      ensures Valid() && acts == old(acts) + [act]
    {
      match act {
        case Status(code) => WriteHeader(code);
        case Piece(p) => Write(p);
      }
    }

    /** A short answer goes out as it is. */
    method SendHeld(ghost payload: Bytes)
      requires Holds(payload) && mode == Undecided
      modifies rw
      ensures rw.finals == [status] && rw.sent == Some(Sent(status, Outgoing(h0, accept, status, |payload|)))
      ensures rw.body == payload
    {
      if rw.header.contentLength.None? {
        rw.header := rw.header.(contentLength := Some(|held|));
      }
      rw.WriteHeader(status);
      rw.Write(held);
    }

    /** The handler has returned: a short answer goes out as it is, a gzipped one gets its trailer. */
    method Finish()
      requires Valid() && codec.Sound()
      modifies rw
      ensures Delivered(codec, h0, accept, acts, rw.finals, rw.sent, rw.body)
    {
      match mode {
        case Undecided =>
          if status == 0 {
            return;
          }
          SendHeld(Payload(acts));
        case Gzip =>
          rw.Write(codec.zip(zw));
          assert rw.body == codec.zip(zw);
        case Identity =>
      }
    }
  }

  /** The middleware around a handler that does acts with the headers of rw. */
  method Serve(codec: Codec, rw: Response, accept: bool, acts: seq<Act>)
    requires codec.Sound() && rw.finals == [] && rw.sent == None && rw.body == []
    modifies rw
    ensures Delivered(codec, old(rw.header), accept, acts, rw.finals, rw.sent, rw.body)
  {
    var w := new GzipWriter(codec, rw, accept);
    for i := 0 to |acts|
      invariant w.Valid() && w.acts == acts[..i] && w.rw == rw && fresh(w)
      invariant w.codec == codec && w.accept == accept && w.h0 == old(rw.header)
    {
      w.Do(acts[i]);
      assert acts[..i + 1] == acts[..i] + [acts[i]];
    }
    assert acts[..|acts|] == acts;
    w.Finish();
  }

  // ------------------------------------------------------------------ main results

  /** What a client makes of an answer: unzipped when it is marked gzip. */
  function Decoded(codec: Codec, sent: Sent, body: Bytes): Bytes {
    if sent.header.contentEncoding == "gzip" then codec.unzip(body) else body
  }

  /**
   * The answer does not depend on how the body was cut into writes, on what followed the first
   * final status, or on informational statuses: same status, same headers, same decoded body.
   */
  lemma {:induction false} ChunkingIsInvisible(codec: Codec, h: Header, accept: bool, acts: seq<Act>, acts': seq<Act>,
                            finals: seq<int>, sent: Option<Sent>, body: Bytes,
                            finals': seq<int>, sent': Option<Sent>, body': Bytes)
    requires FirstFinal(acts) == FirstFinal(acts') && Payload(acts) == Payload(acts') && h.contentEncoding != "gzip"
    requires Delivered(codec, h, accept, acts, finals, sent, body)
    requires Delivered(codec, h, accept, acts', finals', sent', body')
    ensures finals == finals' && sent == sent'
    ensures sent.Some? ==> Decoded(codec, sent.value, body) == Decoded(codec, sent'.value, body')
    ensures sent.Some? && BodyAllowed(sent.value.status) ==> Decoded(codec, sent.value, body) == Payload(acts)
  {
  }

  /** Gzipped exactly when the client takes gzip, the answer is JSON that may be, and it is long
      enough; whatever it is, one final status goes out, the first, and nothing leaves its Vary. */
  lemma {:induction false} GzippedExactlyWhen(codec: Codec, h: Header, accept: bool, acts: seq<Act>, finals: seq<int>,
                                              sent: Option<Sent>, body: Bytes)
    requires Delivered(codec, h, accept, acts, finals, sent, body) && h.contentEncoding != "gzip" && sent.Some?
    ensures sent.value.header.contentEncoding == "gzip" <==>
      && accept && IsJSON(h) && h.contentEncoding == "" && h.etag == ""
      && sent.value.status != 204 && sent.value.status != 304 && |Payload(acts)| >= 1024
    ensures |finals| == 1 && FirstFinal(acts) == Some(finals[0]) && sent.value.status == finals[0]
    ensures IsJSON(h) ==> HasVary(sent.value.header.vary, ACCEPT_ENCODING)
    ensures h.vary <= sent.value.header.vary
  {
    AddVaryNames(h.vary, ACCEPT_ENCODING);
  }

  /** A type is JSON exactly when what stands before its parameters, blanks trimmed, is
      application/json in any case. */
  lemma JSONExactly(h: Header, before: string, t: string, after: string, parameters: string)
    requires IsBlank(before) && IsBlank(after) && IsTrim(t) && ';' !in t
    requires h.contentType == before + t + after || h.contentType == before + t + after + [';'] + parameters
    ensures IsJSON(h) <==> EqualFold(t, "application/json")
  {
    assert !IsSpace(';');
    var kind := before + t + after;
    assert ';' !in kind;
    BeforeConcat(kind, parameters, ';');
    TrimTakesBlanks(before, t, after);
  }

  /** The Vary that goes out: the handler's own, and for JSON Accept-Encoding besides, exactly
      unless an item of one of its values is that already. */
  lemma VariesExactly(codec: Codec, h: Header, accept: bool, acts: seq<Act>, finals: seq<int>,
                      sent: Option<Sent>, body: Bytes, lists: seq<seq<Item>>)
    requires Delivered(codec, h, accept, acts, finals, sent, body) && sent.Some? && AllList(h.vary, lists)
    ensures sent.value.header.vary ==
      if IsJSON(h) && !Named(lists, "Accept-Encoding") then h.vary + ["Accept-Encoding"] else h.vary
  {
    AddsExactly(h.vary, lists, ACCEPT_ENCODING);
  }

  /** The Content-Length that goes out: none for a gzipped answer; of a short one that might have been,
      the handler's own or else its length; of any other, the handler's own or none. */
  lemma {:induction false} LengthExactly(codec: Codec, h: Header, accept: bool, acts: seq<Act>, finals: seq<int>,
                      sent: Option<Sent>, body: Bytes)
    requires Delivered(codec, h, accept, acts, finals, sent, body) && sent.Some?
    ensures var may := accept && IsJSON(h) && h.contentEncoding == "" && h.etag == ""
                       && sent.value.status != 204 && sent.value.status != 304;
      sent.value.header.contentLength ==
        if !may then h.contentLength
        else if |Payload(acts)| >= 1024 then None
        else Some(h.contentLength.GetOr(|Payload(acts)|))
  {
  }
}
