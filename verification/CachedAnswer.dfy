/**
 * The three ways a list answer goes out (internal/api/listcache.go:137-181): written straight
 * when it is not cacheable, encoded and kept on a cache miss, and from the cache on a hit. They
 * take different paths through the stored gzip, the compress middleware and the cut-off at 1 MiB;
 * the results here say what a client sees of the difference.
 */
module CachedAnswer {
  import opened Basics
  import opened HttpText
  import opened Compress
  import LC = ListCache

  const APPLICATION_JSON: string := "application/json"
  const JSON_TYPE: string := APPLICATION_JSON + [';'] + " charset=utf-8"

  /** What a handler answers with: nothing (a nil), something that won't encode, or its JSON. */
  datatype Value = NilValue | Unencodable | Json(text: Bytes)

  /** json.Encoder's output; nil encodes as null and a newline. */
  function Encode(v: Value): Option<Bytes> {
    match v
    case NilValue => Some([0x6E, 0x75, 0x6C, 0x6C, 0x0A])
    case Unencodable => None
    case Json(text) => Some(text)
  }

  /** A request as the middleware sees it. */
  datatype Request = Request(compressible: bool, takesGzip: bool) {
    predicate GzipAccepted() { compressible && takesGzip }
  }

  /** The headers a handler finds: only a Vary set by the layers outside. */
  function Entry(vary: seq<string>): Header {
    Header("", "", None, "", vary)
  }

  /** The headers a handler sets and what it then writes. */
  datatype Script = Script(header: Header, acts: seq<Act>)

  function WriteJSONBytes(h: Header, body: Bytes): Script {
    Script(h.(contentType := JSON_TYPE), [Status(200), Piece(body)])
  }

  function WriteJSON(h: Header, v: Value): Script {
    Script(h.(contentType := JSON_TYPE), [Status(200)] + if v.Json? then [Piece(v.text)] else [])
  }

  function WriteCachedJSON(h: Header, r: Request, answer: LC.Hit): Script {
    if answer.gz.Nil? || !r.GzipAccepted() then WriteJSONBytes(h, BytesOf(answer.body))
    else WriteJSONBytes(h.(contentEncoding := "gzip", contentLength := Some(|answer.gz.bytes|)), answer.gz.bytes)
  }

  function BytesOf(s: LC.Slice): Bytes {
    if s.Nil? then [] else s.bytes
  }

  /** What a miss builds: the encoding, and its gzip when the cache can keep it and it is worth one. */
  function Built(codec: Codec, v: Value): LC.Hit {
    match Encode(v)
    case None => LC.Hit(LC.Nil, LC.Nil)
    case Some(text) =>
      LC.Hit(LC.Slice(text, 0),
             if GZIP_MIN_SIZE <= |text| <= LC.LIST_CACHE_MAX_ENTRY then LC.Slice(codec.zip([text]), 0) else LC.Nil)
  }

  /** e is what a miss that built v stores, in buffers with whatever capacity to spare. */
  predicate Stores(codec: Codec, e: LC.Entry, v: Value) {
    && Encode(v).Some? && e.body.Slice? && e.body.bytes == Encode(v).value
    && (e.gz.Nil? <==> Built(codec, v).gz.Nil?)
    && (e.gz.Slice? ==> e.gz.bytes == codec.zip([Encode(v).value]))
  }

  function Uncached(vary: seq<string>, v: Value): Script {
    WriteJSON(Entry(vary), v)
  }

  function Missed(vary: seq<string>, r: Request, codec: Codec, v: Value): Script {
    WriteCachedJSON(Entry(vary), r, Built(codec, v))
  }

  /** What went out, and what the client makes of it. */
  datatype Wire = Wire(sent: Sent, body: Bytes)

  datatype Seen = Seen(status: int, contentType: string, contentEncoding: string, vary: seq<string>, body: Bytes)

  function View(codec: Codec, w: Wire): Seen {
    Seen(w.sent.status, w.sent.header.contentType, w.sent.header.contentEncoding, w.sent.header.vary,
         Decoded(codec, w.sent, w.body))
  }

  /** The answer as the server sends a script to r: through the middleware, or straight. */
  ghost predicate Sends(codec: Codec, r: Request, s: Script, w: Wire) {
    if r.compressible then Delivered(codec, s.header, r.takesGzip, s.acts, [w.sent.status], Some(w.sent), w.body)
    else w == Wire(Sent(200, s.header), Payload(s.acts))
  }

  /** The server sending a script whose first act is a 200. */
  method Send(codec: Codec, r: Request, s: Script) returns (w: Wire)
    requires codec.Sound() && s.acts != [] && s.acts[0] == Status(200)
    requires forall i :: 0 < i < |s.acts| ==> s.acts[i].Piece?
    ensures Sends(codec, r, s, w)
  {
    var rw := new Response(s.header);
    FirstIsFinal(s.acts);
    if r.compressible {
      Serve(codec, rw, r.takesGzip, s.acts);
    } else {
      rw.WriteHeader(200);
      assert Payload(s.acts[..1]) == [] by { assert s.acts[..1] == [] + [Status(200)]; Acted([], Status(200)); }
      for i := 1 to |s.acts|
        invariant rw.sent == Some(Sent(200, s.header)) && rw.body == Payload(s.acts[..i])
      {
        assert s.acts[..i + 1] == s.acts[..i] + [s.acts[i]];
        Acted(s.acts[..i], s.acts[i]);
        rw.Write(s.acts[i].p);
      }
      assert s.acts[..|s.acts|] == s.acts;
    }
    w := Wire(rw.sent.value, rw.body);
  }

  lemma {:induction false} FirstIsFinal(acts: seq<Act>)
    requires acts != [] && acts[0] == Status(200)
    ensures FirstFinal(acts) == Some(200)
  {
    if |acts| > 1 {
      FirstIsFinal(acts[..|acts| - 1]);
    } else {
      assert acts == [] + [Status(200)];
      Acted([], Status(200));
    }
  }

  /** What a client sees of a script that writes body with a 200 and no coding of its own. */
  ghost function PlainView(r: Request, h: Header, body: Bytes): Seen {
    var zip := r.GzipAccepted() && |body| >= GZIP_MIN_SIZE;
    Seen(200, JSON_TYPE, if zip then "gzip" else "",
         if r.compressible then AddVary(h.vary, ACCEPT_ENCODING) else h.vary, body)
  }

  lemma {:induction false} JsonTypeIsJSON(h: Header)
    requires h.contentType == JSON_TYPE
    ensures IsJSON(h)
  {
    assert forall i :: 0 <= i < |APPLICATION_JSON| ==> APPLICATION_JSON[i] != ';';
    BeforeSemicolon(APPLICATION_JSON, " charset=utf-8");
    TrimNothing(APPLICATION_JSON);
  }

  lemma {:induction false} TrimNothing(s: string)
    requires s != "" && !IsSpace(s[0]) && !IsSpace(s[|s| - 1])
    ensures TrimSpace(s) == s
  {
  }

  lemma {:induction false} BeforeSemicolon(t: string, rest: string)
    requires ';' !in t
    ensures Before(t + [';'] + rest, ';') == t
  {
    var s := t + [';'] + rest;
    if t != "" {
      assert s[1..] == t[1..] + [';'] + rest;
      BeforeSemicolon(t[1..], rest);
    }
  }

  lemma OneWrite(body: Bytes)
    ensures Payload([Status(200), Piece(body)]) == body && Payload([Status(200)]) == []
    ensures FirstFinal([Status(200), Piece(body)]) == Some(200) && FirstFinal([Status(200)]) == Some(200)
  {
    assert [Status(200)] == [] + [Status(200)];
    Acted([], Status(200));
    assert [Status(200), Piece(body)] == [Status(200)] + [Piece(body)];
    Acted([Status(200)], Piece(body));
  }

  /** A body written as it is: whatever the middleware does, the client sees PlainView. */
  lemma PlainSeen(codec: Codec, r: Request, h: Header, s: Script, body: Bytes, w: Wire)
    requires h.contentEncoding == "" && h.etag == ""
    requires s == WriteJSONBytes(h, body) || (body == [] && s == Script(h.(contentType := JSON_TYPE), [Status(200)]))
    requires Sends(codec, r, s, w)
    ensures View(codec, w) == PlainView(r, h, body)
  {
    OneWrite(body);
    JsonTypeIsJSON(s.header);
  }

  /** A body the handler gzipped itself goes through as it is, with the Vary every JSON answer has. */
  lemma CodedPassesThrough(codec: Codec, r: Request, h: Header, gz: Bytes, w: Wire)
    requires r.compressible && h.contentEncoding == "gzip"
    requires Sends(codec, r, WriteJSONBytes(h, gz), w)
    ensures w == Wire(Sent(200, h.(contentType := JSON_TYPE, vary := AddVary(h.vary, ACCEPT_ENCODING))), gz)
  {
    OneWrite(gz);
    JsonTypeIsJSON(h.(contentType := JSON_TYPE));
  }

  /** So a client that takes gzip sees of it what it would see of the body itself. */
  lemma ZippedSeen(codec: Codec, r: Request, h: Header, text: Bytes, w: Wire)
    requires codec.Sound() && r.GzipAccepted() && |text| >= GZIP_MIN_SIZE && h.contentEncoding == "" && h.etag == ""
    requires var gz := codec.zip([text]);
      Sends(codec, r, WriteJSONBytes(h.(contentEncoding := "gzip", contentLength := Some(|gz|)), gz), w)
    ensures View(codec, w) == PlainView(r, h, text)
  {
    var gz := codec.zip([text]);
    CodedPassesThrough(codec, r, h.(contentEncoding := "gzip", contentLength := Some(|gz|)), gz, w);
    FlattenOne(text);
    assert codec.unzip(gz) == text;
  }

  /** A stored gzip is sent as it is, whole and with its length, to a client that takes it; the
      server compresses nothing for it. */
  lemma StoredGzipIsSent(codec: Codec, r: Request, vary: seq<string>, v: Value, w: Wire)
    requires codec.Sound() && Sends(codec, r, Missed(vary, r, codec, v), w) && r.GzipAccepted()
    requires Encode(v).Some? && 1024 <= |Encode(v).value| <= LC.LIST_CACHE_MAX_ENTRY
    ensures w.body == codec.zip([Encode(v).value])
    ensures w.sent.header.contentEncoding == "gzip" && w.sent.header.contentLength == Some(|w.body|)
  {
    var gz := codec.zip([Encode(v).value]);
    CodedPassesThrough(codec, r, Entry(vary).(contentEncoding := "gzip", contentLength := Some(|gz|)), gz, w);
  }

  /** A miss zips what it built exactly when that is from 1 KiB to the 1 MiB the cache keeps. */
  lemma ZipsExactly(codec: Codec, v: Value)
    ensures Built(codec, v).gz.Slice? <==> Encode(v).Some? && 1024 <= |Encode(v).value| <= 1024 * 1024
    ensures Encode(v).Some? ==> Built(codec, v).body.Slice? && Built(codec, v).body.bytes == Encode(v).value
  {
  }

  /** Either branch of writeCachedJSON, of what a miss built, shows the client its encoding. */
  lemma CachedSeen(codec: Codec, r: Request, vary: seq<string>, v: Value, w: Wire)
    requires codec.Sound() && Sends(codec, r, Missed(vary, r, codec, v), w)
    ensures View(codec, w) == PlainView(r, Entry(vary), Encode(v).GetOr([]))
  {
    var answer := Built(codec, v);
    if answer.gz.Nil? || !r.GzipAccepted() {
      PlainSeen(codec, r, Entry(vary), Missed(vary, r, codec, v), BytesOf(answer.body), w);
    } else {
      ZippedSeen(codec, r, Entry(vary), Encode(v).value, w);
    }
  }

  /**
   * Main result: for every value, request and Vary, an uncacheable answer and a miss show the
   * client the same status, type, Content-Encoding, Vary and decoded body, unless the value is
   * nil, and exactly then not: writeJSON writes nothing for it, the cache its "null".
   */
  lemma UncachedAndMissAgreeExactly(codec: Codec, r: Request, vary: seq<string>, v: Value, plain: Wire, miss: Wire)
    requires codec.Sound()
    requires Sends(codec, r, Uncached(vary, v), plain) && Sends(codec, r, Missed(vary, r, codec, v), miss)
    ensures View(codec, plain) == View(codec, miss) <==> !v.NilValue?
    ensures View(codec, miss) == PlainView(r, Entry(vary), Encode(v).GetOr([]))
  {
    CachedSeen(codec, r, vary, v, miss);
    PlainSeen(codec, r, Entry(vary), Uncached(vary, v), if v.Json? then v.text else [], plain);
  }

  /** Capacity to spare is not sent. */
  lemma StoredIsBuilt(codec: Codec, e: LC.Entry, v: Value, h: Header, r: Request)
    requires Stores(codec, e, v)
    ensures WriteCachedJSON(h, r, LC.Hit(e.body, e.gz)) == WriteCachedJSON(h, r, Built(codec, v))
  {
  }

  /** The hit is of a value stored under this generation and key, and shows what a miss of it would. */
  ghost predicate ShowsAMiss(codec: Codec, ops: seq<LC.Op>, gen: nat, key: LC.Key, r: Request, vary: seq<string>,
                             hit: Wire, i: nat, v: Value) {
    && i < |ops| && ops[i].Store? && ops[i].gen == gen && ops[i].entry.key == key && Stores(codec, ops[i].entry, v)
    && |Encode(v).value| <= LC.LIST_CACHE_MAX_ENTRY
    && forall miss :: Sends(codec, r, Missed(vary, r, codec, v), miss) ==> View(codec, hit) == View(codec, miss)
  }

  /**
   * Main result: after any run of look-ups and stores, a hit shows its client, whoever that is,
   * what a miss of its own would show it of a value that a request of this generation stored under
   * this key. Nothing too big to keep is ever a hit.
   */
  lemma {:induction false} HitShowsWhatAMissWould(codec: Codec, ops: seq<LC.Op>, gen: nat, key: LC.Key, r: Request,
                                                  vary: seq<string>, hit: Wire)
    requires codec.Sound()
    requires forall i :: 0 <= i < |ops| && ops[i].Store? ==> exists v :: Stores(codec, ops[i].entry, v)
    requires var answer := LC.Exec(ops).Get(gen, key).1;
      answer.Some? && Sends(codec, r, WriteCachedJSON(Entry(vary), r, answer.value), hit)
    ensures exists i: nat, v :: ShowsAMiss(codec, ops, gen, key, r, vary, hit, i, v)
  {
    var c := LC.Exec(ops);
    var e := c.order[LC.Find(c.order, key)];
    LC.EntriesAreOfThisGeneration(ops, e);
    LC.EntriesFit(ops, e);
    var i: nat :| i < |ops| && ops[i] == LC.Store(c.gen, e);
    var v :| Stores(codec, ops[i].entry, v);
    StoredIsBuilt(codec, e, v, Entry(vary), r);
    CachedSeen(codec, r, vary, v, hit);
    forall miss | Sends(codec, r, Missed(vary, r, codec, v), miss) ensures View(codec, hit) == View(codec, miss) {
      CachedSeen(codec, r, vary, v, miss);
    }
    assert ShowsAMiss(codec, ops, gen, key, r, vary, hit, i, v);
  }
}
