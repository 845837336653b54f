/** One LLM call: resolve the model in the catalog, build the headers and the payload, and
    pull the reply out of the JSON body. The HTTP exchange itself is abstract: the status and
    the parsed body of the reply are inputs. */
module LlmClient {
  import opened Wrappers
  import opened Text
  import opened LlmModels
  import ContextManager

  /** A parsed JSON value (numbers are integers in this model). */
  datatype Json =
    | JNull
    | JBool(b: bool)
    | JNum(n: int)
    | JStr(s: string)
    | JArr(items: seq<Json>)
    | JObj(fields: map<string, Json>)

  /** Python truthiness of a parsed JSON value. */
  predicate Truthy(j: Json) {
    match j
    case JNull => false
    case JBool(b) => b
    case JNum(n) => n != 0
    case JStr(s) => s != []
    case JArr(items) => items != []
    case JObj(fields) => fields != map[]
  }

  /** `key in data`: key membership for an object, element membership for a list, substring
      for a string; `None` where Python raises `TypeError`. */
  function Contains(data: Json, key: string): (r: Option<bool>)
    ensures r.None? <==> data.JNull? || data.JBool? || data.JNum?
    ensures data.JObj? ==> r == Some(key in data.fields)
  {
    match data
    case JObj(fields) => Some(key in fields)
    case JArr(items) => Some(JStr(key) in items)
    case JStr(s) => Some(IsSubstring(key, s))
    case _ => None
  }

  /** `data[key]` with a string key: only an object holding that key answers. */
  function Get(data: Json, key: string): (r: Option<Json>)
    ensures r.Some? <==> data.JObj? && key in data.fields
  {
    if data.JObj? && key in data.fields then Some(data.fields[key]) else None
  }

  /** Why a call produced no reply text. */
  datatype LlmError =
    | ModelNotFound
    | HttpStatus(status: int)
    | BodyNotJson
    | MalformedBody
    | UnexpectedResponse(body: Json)

  /** The reply of the one POST the client makes: its status and its body, when it parses. */
  datatype HttpReply = HttpReply(status: int, body: Option<Json>)

  datatype Payload = Payload(model: string, messages: seq<ContextManager.Turn>, maxTokens: int, stream: bool)

  datatype Request = Request(endpoint: string, headers: map<string, string>, payload: Payload)

  const Anthropic: string := "anthropic"
  const DefaultService: string := "openai"
  const DefaultMaxTokens: int := 1024
  const ContentTypeHeader: string := "Content-Type"
  const JsonMediaType: string := "application/json"
  const ApiKeyHeader: string := "x-api-key"
  const AuthorizationHeader: string := "Authorization"

  /** The model named by the caller, or the default model when no (or an empty) name is given. */
  function ResolveModel(catalog: seq<ModelEntry>, defaultName: string, modelName: Option<string>): Option<ModelEntry> {
    if modelName.Some? && modelName.value != [] then FindByName(catalog, modelName.value)
    else FindByName(catalog, defaultName)
  }

  /** The API key: the variable named by `api_key_env`, when that name is given and non-empty. */
  function ApiKeyFor(model: ModelEntry, env: Env): (r: Option<string>)
    ensures r.Some? <==> model.apiKeyEnv.Some? && model.apiKeyEnv.value != [] && model.apiKeyEnv.value in env
    ensures r.Some? ==> r.value == env[model.apiKeyEnv.value]
  {
    match model.apiKeyEnv
    case None => None
    case Some(name) => if name != [] && name in env then Some(env[name]) else None
  }

  /** The service of a model, `openai` when the entry names none. */
  function ServiceOf(model: ModelEntry): string {
    model.service.GetOr(DefaultService)
  }

  /** A key that is present and non-empty. */
  predicate HasKey(apiKey: Option<string>) {
    apiKey.Some? && apiKey.value != []
  }

  /** The request headers: the content type always, and with a usable key exactly one auth
      header, chosen by service. */
  function AuthHeaders(service: string, apiKey: Option<string>): (h: map<string, string>)
    ensures h.Keys <= {ContentTypeHeader, ApiKeyHeader, AuthorizationHeader}
    ensures ContentTypeHeader in h && h[ContentTypeHeader] == JsonMediaType
    ensures ApiKeyHeader in h <==> HasKey(apiKey) && service == Anthropic
    ensures AuthorizationHeader in h <==> HasKey(apiKey) && service != Anthropic
    ensures ApiKeyHeader in h ==> h[ApiKeyHeader] == apiKey.value
    ensures AuthorizationHeader in h ==> h[AuthorizationHeader] == "Bearer " + apiKey.value
  {
    var base := map[ContentTypeHeader := JsonMediaType];
    if !HasKey(apiKey) then base
    else if service == Anthropic then base[ApiKeyHeader := apiKey.value]
    else base[AuthorizationHeader := "Bearer " + apiKey.value]
  }

  /** The headers dictionary filled in one entry at a time. */
  method BuildHeaders(service: string, apiKey: Option<string>) returns (headers: map<string, string>)
    ensures headers == AuthHeaders(service, apiKey)
  {
    headers := map[ContentTypeHeader := JsonMediaType];
    if HasKey(apiKey) {
      if service == Anthropic {
        headers := headers[ApiKeyHeader := apiKey.value];
      } else {
        headers := headers[AuthorizationHeader := "Bearer " + apiKey.value];
      }
    }
  }

  /** The payload, built in one branch per service family as the client does. */
  function PayloadFor(service: string, model: ModelEntry, messages: seq<ContextManager.Turn>, maxTokens: Option<int>): Payload {
    if service == Anthropic then
      Payload(model.name, messages, maxTokens.GetOr(DefaultMaxTokens), false)
    else
      Payload(model.name, messages, maxTokens.GetOr(DefaultMaxTokens), false)
  }

  /** Both branches build the same payload: the model's name, the messages unchanged, the
      requested token limit or 1024, and no streaming. */
  lemma PayloadSpec(service: string, model: ModelEntry, messages: seq<ContextManager.Turn>, maxTokens: Option<int>)
    ensures PayloadFor(service, model, messages, maxTokens) == PayloadFor(Anthropic, model, messages, maxTokens)
    ensures var p := PayloadFor(service, model, messages, maxTokens);
            && p.model == model.name && p.messages == messages && !p.stream
            && p.maxTokens == (if maxTokens.Some? then maxTokens.value else 1024)
  {
  }

  /** The `text` of an item (`""` when it has none), for an object item. */
  function ItemText(fields: map<string, Json>): Json {
    if "text" in fields then fields["text"] else JStr("")
  }

  /** An object item whose `type` is `"text"`. */
  predicate IsTextItem(fields: map<string, Json>) {
    "type" in fields && fields["type"] == JStr("text")
  }

  /** The join of the `text` of the `text`-typed items of a content list; `None` where Python
      raises (an item that is not an object, or a selected `text` that is not a string). */
  function TextBlocks(items: seq<Json>): Option<string> {
    if items == [] then Some("")
    else
      match items[0]
      case JObj(fields) =>
        var rest := TextBlocks(items[1..]);
        if !IsTextItem(fields) then rest
        else if ItemText(fields).JStr? && rest.Some? then Some(ItemText(fields).s + rest.value)
        else None
      case _ => None
  }

  /** The text items are joined in order: the blocks of a concatenation are the blocks of
      each part, one after the other. */
  lemma {:induction false} TextBlocksAppend(a: seq<Json>, b: seq<Json>)
    requires TextBlocks(a).Some? && TextBlocks(b).Some?
    ensures TextBlocks(a + b) == Some(TextBlocks(a).value + TextBlocks(b).value)
    decreases |a|
  {
    if a != [] {
      assert (a + b)[0] == a[0] && (a + b)[1..] == a[1..] + b;
      TextBlocksAppend(a[1..], b);
      var fields := a[0].fields;
      if IsTextItem(fields) {
        var t := ItemText(fields).s;
        assert t + (TextBlocks(a[1..]).value + TextBlocks(b).value)
            == (t + TextBlocks(a[1..]).value) + TextBlocks(b).value;
      }
    } else {
      assert a + b == b;
      assert "" + TextBlocks(b).value == TextBlocks(b).value;
    }
  }

  /** A text item contributes its text (or nothing, without one); any other object item
      contributes nothing. */
  lemma TextBlocksSingle(fields: map<string, Json>)
    ensures IsTextItem(fields) && "text" !in fields ==> TextBlocks([JObj(fields)]) == Some("")
    ensures IsTextItem(fields) && "text" in fields && fields["text"].JStr? ==>
              TextBlocks([JObj(fields)]) == Some(fields["text"].s)
    ensures !IsTextItem(fields) ==> TextBlocks([JObj(fields)]) == Some("")
  {
    assert [JObj(fields)][1..] == [];
    assert TextBlocks([JObj(fields)][1..]) == Some("");
    if IsTextItem(fields) && ItemText(fields).JStr? {
      assert ItemText(fields).s + "" == ItemText(fields).s;
    }
  }

  /** A content list holding an item that is not an object cannot be joined. */
  lemma {:induction false} TextBlocksNonObject(items: seq<Json>, i: nat)
    requires i < |items| && !items[i].JObj?
    ensures TextBlocks(items) == None
  {
    if i > 0 {
      TextBlocksNonObject(items[1..], i - 1);
    }
  }

  /** `data["choices"][0]["message"]["content"]`, tried when `choices` is present and truthy;
      without it, the "unexpected response" error. */
  function FromChoices(data: Json): Result<Json, LlmError> {
    match Contains(data, "choices")
    case None => Err(MalformedBody)
    case Some(false) => Err(UnexpectedResponse(data))
    case Some(true) =>
      match Get(data, "choices")
      case None => Err(MalformedBody)
      case Some(choices) =>
        if !Truthy(choices) then Err(UnexpectedResponse(data))
        else if !choices.JArr? then Err(MalformedBody)
        else
          match Get(choices.items[0], "message")
          case None => Err(MalformedBody)
          case Some(message) =>
            match Get(message, "content")
            case None => Err(MalformedBody)
            case Some(content) => Ok(content)
  }

  /** The reply text of a parsed body: for `anthropic`, a `content` list's text items joined,
      else `completion`; then, for every service, the first choice's message content. */
  function ExtractReply(service: string, data: Json): Result<Json, LlmError> {
    if service != Anthropic then FromChoices(data)
    else
      match Contains(data, "content")
      case None => Err(MalformedBody)
      case Some(hasContent) =>
        if hasContent && Get(data, "content").None? then Err(MalformedBody)
        else if hasContent && Get(data, "content").value.JArr? then
          match TextBlocks(Get(data, "content").value.items)
          case None => Err(MalformedBody)
          case Some(text) => Ok(JStr(text))
        else
          match Contains(data, "completion")
          case None => Err(MalformedBody)
          case Some(false) => FromChoices(data)
          case Some(true) =>
            match Get(data, "completion")
            case None => Err(MalformedBody)
            case Some(completion) => Ok(completion)
  }

  /** Anthropic: a `content` list wins over everything else in the body. */
  lemma AnthropicContentList(fields: map<string, Json>, items: seq<Json>)
    requires "content" in fields && fields["content"] == JArr(items)
    ensures TextBlocks(items).Some? ==> ExtractReply(Anthropic, JObj(fields)) == Ok(JStr(TextBlocks(items).value))
    ensures TextBlocks(items).None? ==> ExtractReply(Anthropic, JObj(fields)) == Err(MalformedBody)
  {
  }

  /** Anthropic: without a `content` list, `completion` is returned as it is. */
  lemma AnthropicCompletion(fields: map<string, Json>)
    requires "content" !in fields || !fields["content"].JArr?
    requires "completion" in fields
    ensures ExtractReply(Anthropic, JObj(fields)) == Ok(fields["completion"])
  {
  }

  /** A non-empty `choices` list yields its first message's content, for any other service
      and for Anthropic bodies with neither a `content` list nor a `completion`. */
  lemma FirstChoice(service: string, fields: map<string, Json>, first: map<string, Json>, rest: seq<Json>,
                    message: map<string, Json>)
    requires service == Anthropic ==> ("content" !in fields || !fields["content"].JArr?) && "completion" !in fields
    requires "choices" in fields && fields["choices"] == JArr([JObj(first)] + rest)
    requires "message" in first && first["message"] == JObj(message) && "content" in message
    ensures ExtractReply(service, JObj(fields)) == Ok(message["content"])
  {
  }

  /** An object body with no usable source of text is reported as unexpected, with the body. */
  lemma UnexpectedBody(service: string, fields: map<string, Json>)
    requires service == Anthropic ==> ("content" !in fields || !fields["content"].JArr?) && "completion" !in fields
    requires "choices" !in fields || !Truthy(fields["choices"])
    ensures ExtractReply(service, JObj(fields)) == Err(UnexpectedResponse(JObj(fields)))
  {
  }

  /** `raise_for_status` then `resp.json()` then extraction: an error status (400 or above)
      fails at once, with no second attempt. */
  function ReplyOutcome(service: string, reply: HttpReply): (r: Result<Json, LlmError>)
    ensures reply.status >= 400 ==> r == Err(HttpStatus(reply.status))
    ensures reply.status < 400 && reply.body.None? ==> r == Err(BodyNotJson)
  {
    if reply.status >= 400 then Err(HttpStatus(reply.status))
    else
      match reply.body
      case None => Err(BodyNotJson)
      case Some(data) => ExtractReply(service, data)
  }

  class Client {
    const catalog: Catalog

    constructor (catalog: Catalog)
      ensures this.catalog == catalog
    {
      this.catalog := catalog;
    }

    /** `generate`: no request is built when the model cannot be resolved; otherwise one
        request to the model's endpoint with the service's headers and the shared payload,
        and the outcome of its reply. */
    method Generate(messages: seq<ContextManager.Turn>, modelName: Option<string>, env: Env,
                    maxTokens: Option<int>, reply: HttpReply)
      returns (request: Option<Request>, result: Result<Json, LlmError>)
      ensures var model := ResolveModel(catalog.models, catalog.defaultName, modelName);
              && (model.None? ==> request.None? && result == Err(ModelNotFound))
              && (model.Some? ==>
                    var service := ServiceOf(model.value);
                    && request == Some(Request(model.value.endpoint,
                                               AuthHeaders(service, ApiKeyFor(model.value, env)),
                                               PayloadFor(service, model.value, messages, maxTokens)))
                    && result == ReplyOutcome(service, reply))
    {
      var model: Option<ModelEntry>;
      if modelName.Some? && modelName.value != [] {
        model := catalog.GetModelByName(modelName.value);
      } else {
        model := catalog.GetDefaultModel();
      }
      if model.None? {
        return None, Err(ModelNotFound);
      }
      var entry := model.value;
      var apiKey := ApiKeyFor(entry, env);
      var service := ServiceOf(entry);
      var headers := BuildHeaders(service, apiKey);
      var payload := PayloadFor(service, entry, messages, maxTokens);
      request := Some(Request(entry.endpoint, headers, payload));
      if reply.status >= 400 {
        result := Err(HttpStatus(reply.status));
        return;
      }
      match reply.body {
        case None =>
          result := Err(BodyNotJson);
        case Some(data) =>
          result := ExtractReply(service, data);
      }
    }
  }
}
