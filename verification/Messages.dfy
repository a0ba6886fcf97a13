/** JSON-RPC messages: lib/rjr/messages/{request,notification,response,intermediate}.rb
    and lib/rjr/result.rb, at the level of parsed JSON objects. */
module Messages {
  import opened Basics

  /** A parsed message, as `Intermediate` holds it. */
  type Message = map<string, Json>

  type Headers = map<string, Json>

  datatype Result = Result(success: bool, result: Json, code: Json, msg: Json, cls: Json)

  /** What a message says, apart from its headers. */
  datatype Said =
    | Request(id: Json, name: Json, args: Json)
    | Notification(name: Json, args: Json)
    | Response(id: Json, result: Result)

  // ----- results

  /** `Result.new(:result => v)`: `args[:result] || args['result']` turns false into nil. */
  function Succeeded(v: Json): Result {
    Result(true, if v == Bool(false) then Null else v, Null, Null, Null)
  }

  /** `Result.new(:error_code => ..., :error_msg => ..., :error_class => ...)` */
  function Failed(code: Json, msg: string, cls: Json): Result {
    Result(false, Null, code, Str(msg), cls)
  }

  /** The dispatcher's result for a handler that raised. */
  function Raised(msg: string, cls: string): Result { Failed(Num("-32000"), msg, Str(cls)) }

  function MethodNotFound(name: string): Result {
    Failed(Num("-32602"), "Method '" + name + "' not found", Null)
  }

  /** The results that `Result.new` builds. */
  predicate Built(r: Result) {
    if r.success then r.code.Null? && r.msg.Null? && r.cls.Null? else r.result.Null?
  }

  // ----- to_json

  function ErrorJson(r: Result): Json {
    Obj([Member("code", r.code), Member("message", r.msg), Member("class", r.cls)])
  }

  function ToMessage(said: Said, headers: Headers): Message {
    match said
    case Request(id, name, args) =>
      map["jsonrpc" := Str("2.0"), "id" := id, "method" := name, "params" := args] + headers
    case Notification(name, args) =>
      map["jsonrpc" := Str("2.0"), "method" := name, "params" := args] + headers
    case Response(id, r) =>
      map["jsonrpc" := Str("2.0"), "id" := id] + headers
      + if r.success then map["result" := r.result] else map["error" := ErrorJson(r)]
  }

  // ----- parsing

  /** `Intermediate#[]`: nil for a missing key. */
  function Get(m: Message, key: string): Json { if key in m then m[key] else Null }

  predicate IsRequest(m: Message) { "method" in m && "id" in m }
  predicate IsNotification(m: Message) { "method" in m && "id" !in m }
  predicate IsResponse(m: Message) { "result" in m || "error" in m }

  /** The value of a JSON object's member; the last one counts. */
  function Field(members: seq<Member>, name: string): Json {
    if members == [] then Null
    else
      var last := members[|members| - 1];
      if last.name == name then last.value else Field(members[..|members| - 1], name)
  }

  predicate Contains(s: string, part: string) { part <= s || (s != "" && Contains(s[1..], part)) }

  /** Ruby's `value[key]` with a string key, which only a hash and a string have; a string
      answers with the key if it contains it. Any other value raises. */
  function Index(v: Json, key: string): Option<Json> {
    match v
    case Obj(members) => Some(Field(members, key))
    case Str(s) => Some(if Contains(s, key) then Str(key) else Null)
    case _ => None
  }

  /** `Response#parse_result`; nothing if it raises. */
  function ParseResult(m: Message): Option<Result> {
    if "result" in m then Some(Result(true, m["result"], Null, Null, Null))
    else if "error" !in m then Some(Result(false, Null, Null, Null, Null))
    else
      match (Index(m["error"], "code"), Index(m["error"], "message"), Index(m["error"], "class"))
      case (Some(code), Some(msg), Some(cls)) => Some(Result(false, Null, code, msg, cls))
      case _ => None
  }

  /** The order in which `Node#handle_message` tries the kinds, and the parse that follows. */
  function Parse(m: Message): Option<Said> {
    if IsRequest(m) then Some(Request(m["id"], m["method"], Get(m, "params")))
    else if IsNotification(m) then Some(Notification(m["method"], Get(m, "params")))
    else if IsResponse(m) then
      match ParseResult(m)
      case None => None
      case Some(r) => Some(Response(Get(m, "id"), r))
    else None
  }

  const REQUEST_WORDS := {"jsonrpc", "id", "method", "params"}
  const NOTIFICATION_WORDS := {"jsonrpc", "method", "params"}
  const RESPONSE_WORDS := {"jsonrpc", "id", "method", "result", "error"}

  function Words(said: Said): set<string> {
    match said
    case Request(_, _, _) => REQUEST_WORDS
    case Notification(_, _) => NOTIFICATION_WORDS
    case Response(_, _) => RESPONSE_WORDS
  }

  /** The header table after `parse_headers` has written to it. */
  function Learn(headers: Headers, m: Message, words: set<string>): Headers { headers + (m - words) }

  // ----- exactly when a message survives its own headers

  predicate Keeps(headers: Headers, key: string, value: Json) { key in headers ==> headers[key] == value }

  /** The headers do not change what the message says. */
  predicate Harmless(said: Said, headers: Headers) {
    match said
    case Request(id, name, args) =>
      Keeps(headers, "id", id) && Keeps(headers, "method", name) && Keeps(headers, "params", args)
    case Notification(name, args) =>
      "id" !in headers && Keeps(headers, "method", name) && Keeps(headers, "params", args)
    case Response(id, r) =>
      "method" !in headers && Keeps(headers, "id", id) && (!r.success ==> "result" !in headers)
  }

  predicate WellFormed(said: Said) { said.Response? ==> Built(said.result) }

  lemma ErrorFields(r: Result)
    ensures Field(ErrorJson(r).members, "code") == r.code
    ensures Field(ErrorJson(r).members, "message") == r.msg
    ensures Field(ErrorJson(r).members, "class") == r.cls
  {
    var e := ErrorJson(r).members;
    assert e[..2] == [e[0], e[1]] && e[..2][..1] == [e[0]];
    assert Field([e[0]], "code") == r.code && Field([e[0], e[1]], "code") == r.code;
  }

  /** A message parses back to what it was serialised from if and only if its headers
      are harmless to it. */
  lemma ParsesBackIff(said: Said, headers: Headers)
    requires WellFormed(said)
    ensures Parse(ToMessage(said, headers)) == Some(said) <==> Harmless(said, headers)
  {
    if said.Response? {
      ErrorFields(said.result);
    }
  }

  // ----- what is on the wire

  function OwnWords(said: Said): set<string> {
    match said
    case Request(_, _, _) => {"jsonrpc", "id", "method", "params"}
    case Notification(_, _) => {"jsonrpc", "method", "params"}
    case Response(_, r) => {"jsonrpc", "id", if r.success then "result" else "error"}
  }

  /** A message has the version, the words of its kind and all headers, and nothing else.
      Headers win over the message's own words, except over a response's result. */
  lemma MessageContents(said: Said, headers: Headers)
    ensures var m := ToMessage(said, headers);
            && m.Keys == OwnWords(said) + headers.Keys
            && ("jsonrpc" !in headers ==> m["jsonrpc"] == Str("2.0"))
            && (forall k :: k in headers && !(said.Response? && k in {"result", "error"}) ==> m[k] == headers[k])
            && (said.Response? && said.result.success ==> m["result"] == said.result.result)
  {
  }

  /** The code, text and class of an error, as the receiver finds them. */
  ghost predicate ErrorOnWire(m: Message, code: Json, msg: Json, cls: Json) {
    && "error" in m && "result" !in m && m["error"].Obj?
    && Field(m["error"].members, "code") == code && Field(m["error"].members, "message") == msg
    && Field(m["error"].members, "class") == cls
  }

  /** The answers to a request for an unknown method, and to one whose handler raised. */
  lemma FailuresOnWire(id: Json, headers: Headers, name: string, msg: string, cls: string)
    requires Clean(headers)
    ensures ErrorOnWire(ToMessage(Response(id, MethodNotFound(name)), headers),
                        Num("-32602"), Str("Method '" + name + "' not found"), Null)
    ensures ErrorOnWire(ToMessage(Response(id, Raised(msg, cls)), headers), Num("-32000"), Str(msg), Str(cls))
  {
    ErrorFields(MethodNotFound(name));
    ErrorFields(Raised(msg, cls));
    assert forall k :: k in RESERVED ==> k !in headers.Keys;
  }

  /** What a header table holds after a message: the message's value under every name that is
      not one of the words, and its own under every other name. */
  lemma LearnedIff(headers: Headers, m: Message, words: set<string>, k: string)
    ensures k in Learn(headers, m, words) <==> k in headers || (k in m && k !in words)
    ensures k in m && k !in words ==> Learn(headers, m, words)[k] == m[k]
    ensures k in headers && !(k in m && k !in words) ==> Learn(headers, m, words)[k] == headers[k]
  {
  }

  lemma {:induction false} ContainsIff(s: string, part: string)
    ensures Contains(s, part) <==> exists i :: 0 <= i <= |s| && part <= s[i..]
  {
    assert s[0..] == s;
    if s != "" {
      ContainsIff(s[1..], part);
      assert forall i :: 0 < i <= |s| ==> s[i..] == s[1..][i - 1..];
      assert forall i :: 0 <= i < |s| ==> s[1..][i..] == s[i + 1..];
    }
  }

  /** An error that is a string reads as the names of the fields it happens to contain. */
  lemma StringErrorReads(m: Message, s: string)
    requires "result" !in m && "error" in m && m["error"] == Str(s)
    ensures ParseResult(m).Some? && !ParseResult(m).value.success && ParseResult(m).value.result == Null
    ensures var r := ParseResult(m).value;
            && r.code == (if exists i :: 0 <= i <= |s| && "code" <= s[i..] then Str("code") else Null)
            && r.msg == (if exists i :: 0 <= i <= |s| && "message" <= s[i..] then Str("message") else Null)
            && r.cls == (if exists i :: 0 <= i <= |s| && "class" <= s[i..] then Str("class") else Null)
  {
    ContainsIff(s, "code");
    ContainsIff(s, "message");
    ContainsIff(s, "class");
  }

  const RESERVED := {"jsonrpc", "id", "method", "params", "result", "error"}

  predicate Clean(headers: Headers) { headers.Keys !! RESERVED }

  lemma CleanIsHarmless(said: Said, headers: Headers)
    requires Clean(headers)
    ensures Harmless(said, headers)
  {
    assert forall k :: k in RESERVED ==> k !in headers.Keys;
  }

  /** Clean headers stay clean when a node learns from a message with clean headers. */
  lemma LearnsClean(mine: Headers, said: Said, theirs: Headers)
    requires Clean(mine) && Clean(theirs)
    ensures Clean(Learn(mine, ToMessage(said, theirs), Words(said)))
  {
    var m := ToMessage(said, theirs) - Words(said);
    assert forall k :: k in m ==> k in theirs.Keys;
    assert forall k :: k in RESERVED ==> k !in theirs.Keys && k !in mine.Keys;
  }

  lemma CleanTogether(a: Headers, b: Headers)
    requires Clean(a) && Clean(b)
    ensures Clean(a + b)
  {
    assert (a + b).Keys == a.Keys + b.Keys;
  }

  /** A response that carries a `params` key teaches the receiver to spoil its own requests. */
  lemma ForeignParamsSpoilRequests(id: Json, v: Json, id2: Json, name: Json, args: Json)
    requires v != args
    ensures var m := map["id" := id, "result" := Null, "params" := v];
            && Parse(m) == Some(Response(id, Result(true, Null, Null, Null, Null)))
            && Parse(ToMessage(Request(id2, name, args), Learn(map[], m, RESPONSE_WORDS)))
               == Some(Request(id2, name, v))
  {
  }
}

/** The message classes with their shared header table. Every message of a node is given
    the node's own `message_headers`, so parsing one message changes what the next one
    sends. */
module MessageObjects {
  import opened Basics
  import opened Messages

  class HeaderTable {
    var entries: Headers

    constructor (configured: Headers)
      ensures entries == configured
    {
      entries := configured;
    }

    /** `parse_headers` of the three message classes, which differ in `words`. */
    method ParseHeaders(message: Message, words: set<string>)
      modifies this
      ensures entries == Learn(old(entries), message, words)
      ensures forall k :: k in entries <==> k in old(entries) || (k in message && k !in words)
      ensures forall k :: k in message && k !in words ==> entries[k] == message[k]
      ensures forall k :: k in old(entries) && !(k in message && k !in words) ==> entries[k] == old(entries)[k]
    {
      var keys := message.Keys;
      while keys != {}
        invariant keys <= message.Keys
        invariant entries == old(entries) + map k | k in message && k !in keys && k !in words :: message[k]
        decreases keys
      {
        var k :| k in keys;
        keys := keys - {k};
        if k !in words {
          entries := entries[k := message[k]];
        }
      }
      assert (map k | k in message && k !in words :: message[k]) == message - words;
    }
  }

  class RequestMessage {
    var id: Json
    var jrMethod: Json
    var args: Json
    const headers: HeaderTable

    ghost function Says(): Said reads this { Request(id, jrMethod, args) }

    function ToJson(): (m: Message)
      reads this, headers
      ensures Harmless(Says(), headers.entries) ==> Parse(m) == Some(Says())
      ensures m.Keys == OwnWords(Says()) + headers.entries.Keys
    {
      ParsesBackIff(Request(id, jrMethod, args), headers.entries);
      MessageContents(Request(id, jrMethod, args), headers.entries);
      ToMessage(Request(id, jrMethod, args), headers.entries)
    }

    constructor New(id: Json, jrMethod: Json, args: Json, headers: HeaderTable)
      ensures Says() == Request(id, jrMethod, args) && this.headers == headers
    {
      this.id, this.jrMethod, this.args, this.headers := id, jrMethod, args, headers;
    }

    constructor Received(message: Message, headers: HeaderTable)
      modifies headers
      ensures Says() == Request(Get(message, "id"), Get(message, "method"), Get(message, "params"))
      ensures this.headers == headers
      ensures headers.entries == Learn(old(headers.entries), message, REQUEST_WORDS)
    {
      this.jrMethod, this.args, this.id := Get(message, "method"), Get(message, "params"), Get(message, "id");
      this.headers := headers;
      new;
      headers.ParseHeaders(message, REQUEST_WORDS);
    }
  }

  class NotificationMessage {
    var jrMethod: Json
    var args: Json
    const headers: HeaderTable

    ghost function Says(): Said reads this { Notification(jrMethod, args) }

    function ToJson(): (m: Message)
      reads this, headers
      ensures Harmless(Says(), headers.entries) ==> Parse(m) == Some(Says())
      ensures m.Keys == OwnWords(Says()) + headers.entries.Keys
    {
      ParsesBackIff(Notification(jrMethod, args), headers.entries);
      MessageContents(Notification(jrMethod, args), headers.entries);
      ToMessage(Notification(jrMethod, args), headers.entries)
    }

    constructor New(jrMethod: Json, args: Json, headers: HeaderTable)
      ensures Says() == Notification(jrMethod, args) && this.headers == headers
    {
      this.jrMethod, this.args, this.headers := jrMethod, args, headers;
    }

    constructor Received(message: Message, headers: HeaderTable)
      modifies headers
      ensures Says() == Notification(Get(message, "method"), Get(message, "params"))
      ensures this.headers == headers
      ensures headers.entries == Learn(old(headers.entries), message, NOTIFICATION_WORDS)
    {
      this.jrMethod, this.args := Get(message, "method"), Get(message, "params");
      this.headers := headers;
      new;
      headers.ParseHeaders(message, NOTIFICATION_WORDS);
    }
  }

  class ResponseMessage {
    var id: Json
    var result: Result
    const headers: HeaderTable

    ghost function Says(): Said reads this { Response(id, result) }

    function ToJson(): Message reads this, headers { ToMessage(Response(id, result), headers.entries) }

    constructor New(id: Json, result: Result, headers: HeaderTable)
      ensures Says() == Response(id, result) && this.headers == headers
    {
      this.id, this.result, this.headers := id, result, headers;
    }

    constructor Received(message: Message, headers: HeaderTable)
      requires ParseResult(message).Some?
      modifies headers
      ensures Says() == Response(Get(message, "id"), ParseResult(message).value)
      ensures this.headers == headers
      ensures headers.entries == Learn(old(headers.entries), message, RESPONSE_WORDS)
    {
      this.id, this.result := Get(message, "id"), ParseResult(message).value;
      this.headers := headers;
      new;
      headers.ParseHeaders(message, RESPONSE_WORDS);
    }
  }

  /** `Response.new(:message => ...)`: it raises, before it writes any header, exactly if the
      `error` of a message without `result` is neither an object nor a string. */
  method ReceiveResponse(message: Message, headers: HeaderTable) returns (response: Option<ResponseMessage>)
    modifies headers
    ensures response.None? <==> "result" !in message && "error" in message
                                && !message["error"].Obj? && !message["error"].Str?
    ensures response.None? ==> headers.entries == old(headers.entries)
    ensures response.Some? ==> fresh(response.value) && ParseResult(message).Some?
    ensures response.Some? ==> response.value.Says() == Response(Get(message, "id"), ParseResult(message).value)
    ensures response.Some? ==> headers.entries == Learn(old(headers.entries), message, RESPONSE_WORDS)
  {
    if ParseResult(message).None? { return None; }
    var r := new ResponseMessage.Received(message, headers);
    return Some(r);
  }

  /** `Node#handle_request` around the dispatcher, which yields `result` and may add `added`
      to the request's headers: the answer is sent with everything the node has learnt. */
  method HandleRequest(message: Message, headers: HeaderTable, added: Headers, result: Result)
    returns (response: ResponseMessage)
    modifies headers
    ensures fresh(response) && response.headers == headers
    ensures headers.entries == Learn(old(headers.entries), message, REQUEST_WORDS) + added
    ensures response.ToJson() == ToMessage(Response(Get(message, "id"), result), headers.entries)
    ensures response.ToJson().Keys == OwnWords(Response(Get(message, "id"), result)) + headers.entries.Keys
    ensures forall k :: k in headers.entries && k !in {"result", "error"} ==>
              response.ToJson()[k] == headers.entries[k]
  {
    var msg := new RequestMessage.Received(message, headers);
    headers.entries := headers.entries + added;
    response := new ResponseMessage.New(msg.id, result, msg.headers);
    MessageContents(Response(msg.id, result), headers.entries);
  }
}
