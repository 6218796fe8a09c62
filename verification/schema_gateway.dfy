/** The `POST` handler of src/app/api/generate-schema/route.ts: validate the request,
    call the completion service once, pull the JSON out of its answer and parse it.

    The completion service and `JSON.parse` are parameters; every `throw` inside the
    handler ends in its `catch`, which answers 500 with the error's message (every
    error thrown there is an `Error`, so the "未知错误" fallback is never taken). */
module SchemaGateway {
  import opened Wrappers
  import opened JsText
  import Json
  import FencedJson

  /** The request body `{image, prompt}`; a field that is absent is `None`. */
  datatype GenerateBody = GenerateBody(image: Option<string>, prompt: Option<string>)

  /** What the handler sends upstream, apart from the fixed system prompt and model
      parameters: the bearer key, the image URL and the user text. */
  datatype UpstreamCall = UpstreamCall(apiKey: string, imageUrl: string, text: string)

  /** The upstream answer: its HTTP status and `choices[0]?.message?.content`, or the
      message of an error thrown on the way there (`fetch` rejecting, `response.json()`
      failing on a body that is not JSON, or `data.choices[0]` on a body without
      `choices`). */
  datatype UpstreamReply =
    | Replied(status: nat, content: Option<string>)
    | Threw(message: string)

  /** The JSON body of the response: `{schema, success: true}` or `{success: false, error}`. */
  datatype Outcome = Generated(schema: Json.Value) | Failed(error: string)

  datatype Response = Response(status: nat, outcome: Outcome)

  /** One run of the handler: the upstream call it made, if any, and its response. */
  datatype Exchange = Exchange(call: Option<UpstreamCall>, response: Response)

  const MissingInputError := "图片和提示词都是必需的"
  const MissingKeyError := "OpenRouter API 密钥未配置"
  const UpstreamErrorPrefix := "OpenRouter API 请求失败: "
  const EmptyContentError := "OpenRouter API 返回内容为空"
  const InvalidSchemaError := "生成的 schema 格式无效"

  const ImageUrlPrefix := "data:image/png;base64,"
  const PromptIntro := "图片描述："
  const PromptOutro := "\n\n请根据以上描述生成 Formily 2.x 的 schema。"

  /** JavaScript truthiness of an optional string: present and non-empty. */
  predicate Present(v: Option<string>) {
    v.Some? && v.value != ""
  }

  /** `response.ok`: a status in 200..299. */
  predicate Ok(status: nat) {
    200 <= status <= 299
  }

  /** The upstream request built from a validated body. */
  function BuildCall(apiKey: string, image: string, prompt: string): (c: UpstreamCall)
    ensures c.apiKey == apiKey
    ensures |c.imageUrl| == |ImageUrlPrefix| + |image|
    ensures |c.text| == |PromptIntro| + |prompt| + |PromptOutro|
    ensures c.imageUrl[..|ImageUrlPrefix|] == ImageUrlPrefix && c.imageUrl[|ImageUrlPrefix|..] == image
    ensures c.text[..|PromptIntro|] == PromptIntro
    ensures c.text[|PromptIntro|..|c.text| - |PromptOutro|] == prompt
    ensures c.text[|c.text| - |PromptOutro|..] == PromptOutro
  {
    UpstreamCall(apiKey, ImageUrlPrefix + image, PromptIntro + prompt + PromptOutro)
  }

  /** The error message of a non-ok upstream answer. */
  function UpstreamError(status: nat): (e: string)
    ensures |e| > |UpstreamErrorPrefix| && e[..|UpstreamErrorPrefix|] == UpstreamErrorPrefix
    ensures e[|UpstreamErrorPrefix|..] == NatToString(status)
  {
    UpstreamErrorPrefix + NatToString(status)
  }

  /** What the handler makes of the upstream answer. */
  function Interpret(reply: UpstreamReply, parse: string -> Option<Json.Value>): (r: Response)
    ensures r.outcome.Generated? <==>
              reply.Replied? && Ok(reply.status) && Present(reply.content) &&
              parse(FencedJson.JsonText(reply.content.value)).Some?
    ensures r.outcome.Generated? ==>
              r.status == 200 && Some(r.outcome.schema) == parse(FencedJson.JsonText(reply.content.value))
    ensures r.outcome.Failed? ==> r.status == 500
    ensures reply.Threw? ==> r == Response(500, Failed(reply.message))
    ensures reply.Replied? && !Ok(reply.status) ==> r == Response(500, Failed(UpstreamError(reply.status)))
    ensures reply.Replied? && Ok(reply.status) && !Present(reply.content) ==>
              r == Response(500, Failed(EmptyContentError))
    ensures reply.Replied? && Ok(reply.status) && Present(reply.content) &&
            parse(FencedJson.JsonText(reply.content.value)).None? ==>
              r == Response(500, Failed(InvalidSchemaError))
  {
    if reply.Threw? then Response(500, Failed(reply.message))
    else if !Ok(reply.status) then Response(500, Failed(UpstreamError(reply.status)))
    else if !Present(reply.content) then Response(500, Failed(EmptyContentError))
    else
      match parse(FencedJson.JsonText(reply.content.value))
      case None => Response(500, Failed(InvalidSchemaError))
      case Some(schema) => Response(200, Generated(schema))
  }

  /** The handler: the 400 check on the body, then the 500 check on the key, then one
      upstream call and its interpretation. */
  function Handle(body: GenerateBody, apiKey: Option<string>,
                  upstream: UpstreamCall -> UpstreamReply,
                  parse: string -> Option<Json.Value>): (x: Exchange)
    ensures x.response.status == 400 <==> !Present(body.image) || !Present(body.prompt)
    ensures x.response.status == 400 ==> x.response.outcome == Failed(MissingInputError)
    ensures x.call.Some? <==> Present(body.image) && Present(body.prompt) && Present(apiKey)
    ensures x.call.Some? ==> x.call.value == BuildCall(apiKey.value, body.image.value, body.prompt.value)
    ensures x.call.Some? ==> x.response == Interpret(upstream(x.call.value), parse)
    ensures Present(body.image) && Present(body.prompt) && !Present(apiKey) ==>
              x.response == Response(500, Failed(MissingKeyError))
    ensures x.response.status == 200 <==> x.response.outcome.Generated?
    ensures x.response.status in {200, 400, 500}
  {
    if !Present(body.image) || !Present(body.prompt) then
      Exchange(None, Response(400, Failed(MissingInputError)))
    else if !Present(apiKey) then
      Exchange(None, Response(500, Failed(MissingKeyError)))
    else
      var call := BuildCall(apiKey.value, body.image.value, body.prompt.value);
      Exchange(Some(call), Interpret(upstream(call), parse))
  }

  /** The upstream status can be read back from the error message. */
  lemma UpstreamErrorCarriesStatus(status: nat)
    ensures UpstreamError(status)[..|UpstreamErrorPrefix|] == UpstreamErrorPrefix
    ensures ParseInt(UpstreamError(status)[|UpstreamErrorPrefix|..]) == Some(status as int)
  {
    assert UpstreamError(status)[|UpstreamErrorPrefix|..] == NatToString(status);
    ParseIntOfNatToString(status);
  }

  /** A completion whose answer holds a non-empty ```json block in plain prose is
      parsed from that block's trimmed body. */
  lemma FencedAnswerIsParsed(reply: UpstreamReply, parse: string -> Option<Json.Value>,
                             pre: string, body: string, post: string)
    requires reply.Replied? && Ok(reply.status)
    requires reply.content == Some(pre + FencedJson.JsonFence + body + FencedJson.Fence + post)
    requires '`' !in pre && '`' !in body && Trim(body) != ""
    ensures Interpret(reply, parse).outcome.Generated? <==> parse(Trim(body)).Some?
    ensures parse(Trim(body)).Some? ==> Interpret(reply, parse) == Response(200, Generated(parse(Trim(body)).value))
  {
    FencedJson.FencedBlockInProse(pre, body, post);
  }
}
