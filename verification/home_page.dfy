/** The generator page of src/app/page.tsx: the submit guard, the request it sends to
    the schema route, the history record it writes after a success, and the retry and
    view actions of the history list. The route is a parameter `server` from request
    body to outcome; `ServedByGateway` plugs in `SchemaGateway.Handle`. */
module HomePage {
  import opened Wrappers
  import opened JsText
  import opened Types
  import Json
  import HistoryStore
  import SchemaGateway

  const GuardError := "请上传图片并输入描述"
  const GenericError := "生成失败"

  /** The file name a retried record's image is given. */
  const RetryFileName := "history-image.png"

  /** The page state that the handlers change. */
  datatype HomeState = HomeState(
    image: Option<UploadedImage>,
    prompt: string,
    isLoading: bool,
    error: Option<string>,
    schema: Option<Json.Value>,
    drawerOpen: bool)

  /** `canSubmit`: an image, a prompt that is not blank, and no request under way. */
  predicate CanSubmit(st: HomeState)
    ensures CanSubmit(st) <==> st.image.Some? && !AllSpace(st.prompt) && !st.isLoading
  {
    TrimEmptyIffAllSpace(st.prompt);
    st.image.Some? && Trim(st.prompt) != "" && !st.isLoading
  }

  /** `preview.split(',')[1]`: the text between the first and the second comma, or
      `undefined` (`None`) when there is no comma. */
  function Base64Of(preview: string): (r: Option<string>)
    ensures r.Some? <==> ',' in preview
    ensures r.Some? ==> ',' !in r.value
  {
    var parts := Split(preview, ',');
    if |parts| > 1 then
      assert ',' in preview by {
        if ',' !in preview {
          SplitWithoutSeparator(preview, ',');
        }
      }
      Some(parts[1])
    else
      SplitWithoutCommaIsWhole(preview, parts);
      None
  }

  /** A string that splits into one piece has no comma. */
  lemma SplitWithoutCommaIsWhole(s: string, parts: seq<string>)
    requires parts == Split(s, ',') && |parts| <= 1
    ensures ',' !in s
  {
    JoinSplit(s, ',');
    assert Join(parts, ',') == parts[0];
  }

  /** The data URL a retried record's image is shown with. */
  function DataUrl(base64: string): string {
    SchemaGateway.ImageUrlPrefix + base64
  }

  /** The payload is the piece between the first comma and the next one (or the end):
      every preview with a comma has this shape, so this pins the result. */
  lemma Base64OfSecondPiece(head: string, base64: string, rest: string)
    requires ',' !in head && ',' !in base64
    requires rest == [] || rest[0] == ','
    ensures Base64Of(head + [','] + base64 + rest) == Some(base64)
  {
    assert head + [','] + base64 + rest == head + [','] + (base64 + rest);
    SplitAtSeparator(head, ',', base64 + rest);
    if rest == [] {
      assert base64 + rest == base64;
      SplitWithoutSeparator(base64, ',');
    } else {
      assert base64 + rest == base64 + [','] + rest[1..];
      SplitAtSeparator(base64, ',', rest[1..]);
    }
  }

  /** The base64 payload of a PNG data URL is read back unchanged, so a retried image
      is the image that was stored. */
  lemma Base64OfDataUrl(base64: string)
    requires ',' !in base64
    ensures Base64Of(DataUrl(base64)) == Some(base64)
  {
    var head := SchemaGateway.ImageUrlPrefix[..|SchemaGateway.ImageUrlPrefix| - 1];
    assert SchemaGateway.ImageUrlPrefix == head + [','];
    assert DataUrl(base64) == head + [','] + base64;
    assert DataUrl(base64) == head + [','] + base64 + [];
    Base64OfSecondPiece(head, base64, []);
  }

  /** What a generation did: the state after it, the storage after it, and the body
      it sent to the route, if it got that far. */
  datatype Generation = Generation(state: HomeState, storage: HistoryStore.Storage, sent: Option<SchemaGateway.GenerateBody>)

  /** The error the page shows for a failed outcome: the route's message, or a generic
      one when that message is empty. */
  function FailureText(error: string): (t: string)
    ensures t != ""
    ensures error != "" ==> t == error
    ensures error == "" ==> t == GenericError
  {
    if error == "" then GenericError else error
  }

  /** `handleGenerateSchema`: refuse without an image or with a blank prompt; otherwise
      send the base64 payload and the trimmed prompt, and on success record them in
      the local history (always as a success) and open the drawer on the schema. A
      failure shows the error and writes nothing. */
  function HandleGenerate(st: HomeState, storage: HistoryStore.Storage,
                          server: SchemaGateway.GenerateBody -> SchemaGateway.Outcome,
                          id: string, now: int): (g: Generation)
    ensures g.sent.None? <==> st.image.None? || Trim(st.prompt) == ""
    ensures g.sent.None? ==> g.state == st.(error := Some(GuardError)) && g.storage == storage
    ensures g.sent.Some? ==>
              g.sent.value == SchemaGateway.GenerateBody(Base64Of(st.image.value.preview), Some(Trim(st.prompt)))
    ensures g.sent.Some? ==> !g.state.isLoading && g.state.image == st.image && g.state.prompt == st.prompt
    ensures g.sent.Some? && server(g.sent.value).Failed? ==>
              g.storage == storage && g.state.error == Some(FailureText(server(g.sent.value).error))
    ensures g.sent.Some? && server(g.sent.value).Failed? ==>
              g.state == st.(isLoading := false, error := Some(FailureText(server(g.sent.value).error)))
    ensures g.sent.Some? && server(g.sent.value).Generated? ==>
              var h := HistoryStore.GetHistory(g.storage);
              |h| >= 1 && h[0].prompt == Trim(st.prompt) && h[0].success &&
              h[0].image == Base64Of(st.image.value.preview).GetOr("") && h[0].schema == server(g.sent.value).schema &&
              h[0].id == id && h[0].createdAt == now &&
              g.state.schema == Some(h[0].schema) && g.state.drawerOpen && g.state.error.None?
    ensures g.sent.Some? && server(g.sent.value).Generated? ==>
              g.storage == HistoryStore.AddHistory(storage, NewRecord(Base64Of(st.image.value.preview).GetOr(""),
                                                                      Trim(st.prompt), server(g.sent.value).schema, true),
                                                   id, now)
  {
    if st.image.None? || Trim(st.prompt) == "" then
      Generation(st.(error := Some(GuardError)), storage, None)
    else
      var base64 := Base64Of(st.image.value.preview);
      var prompt := Trim(st.prompt);
      var body := SchemaGateway.GenerateBody(base64, Some(prompt));
      match server(body)
      case Failed(e) =>
        Generation(st.(isLoading := false, error := Some(FailureText(e))), storage, Some(body))
      case Generated(schema) =>
        var rec := NewRecord(base64.GetOr(""), prompt, schema, true);
        var after := HistoryStore.AddHistory(storage, rec, id, now);
        Generation(st.(isLoading := false, error := None, schema := Some(schema), drawerOpen := true),
                   after, Some(body))
  }

  /** A page that can submit always gets past the guard. */
  lemma CanSubmitPassesGuard(st: HomeState, storage: HistoryStore.Storage,
                             server: SchemaGateway.GenerateBody -> SchemaGateway.Outcome,
                             id: string, now: int)
    requires CanSubmit(st)
    ensures HandleGenerate(st, storage, server, id, now).sent.Some?
  {
  }

  /** The outcome the schema route gives a body, for a fixed key, completion service
      and JSON parser. */
  function ServedByGateway(body: SchemaGateway.GenerateBody, apiKey: Option<string>,
                           upstream: SchemaGateway.UpstreamCall -> SchemaGateway.UpstreamReply,
                           parse: string -> Option<Json.Value>): SchemaGateway.Outcome {
    SchemaGateway.Handle(body, apiKey, upstream, parse).response.outcome
  }

  /** Against the real route, a recorded success means the completion service was
      called with the image's base64 payload and the trimmed prompt, and that payload
      was non-empty. */
  lemma RecordedSuccessWasSentUpstream(st: HomeState, storage: HistoryStore.Storage, id: string, now: int,
                                       apiKey: Option<string>,
                                       upstream: SchemaGateway.UpstreamCall -> SchemaGateway.UpstreamReply,
                                       parse: string -> Option<Json.Value>)
    ensures var server := b => ServedByGateway(b, apiKey, upstream, parse);
            var g := HandleGenerate(st, storage, server, id, now);
            g.sent.Some? && server(g.sent.value).Generated? ==>
              var x := SchemaGateway.Handle(g.sent.value, apiKey, upstream, parse);
              var h := HistoryStore.GetHistory(g.storage);
              x.call.Some? && h[0].image != "" &&
              x.call.value == SchemaGateway.BuildCall(apiKey.value, h[0].image, h[0].prompt)
  {
  }

  /** What a retry did: the state after it and the body it sent. */
  datatype Retry = Retry(state: HomeState, sent: SchemaGateway.GenerateBody)

  /** `handleRetry`: show the record's image and prompt, and send them as stored, with
      no guard, no trimming and no new history record. */
  function HandleRetry(st: HomeState, record: HistoryRecord,
                       server: SchemaGateway.GenerateBody -> SchemaGateway.Outcome): (r: Retry)
    ensures r.sent == SchemaGateway.GenerateBody(Some(record.image), Some(record.prompt))
    ensures r.state.prompt == record.prompt
    ensures r.state.image.Some? && r.state.image.value.file == FileInfo(RetryFileName, "", 0)
    ensures r.state.image.Some? && r.state.image.value.preview == DataUrl(record.image)
    ensures ',' !in record.image ==> Base64Of(r.state.image.value.preview) == Some(record.image)
    ensures !r.state.isLoading
    ensures server(r.sent).Generated? ==>
              r.state.schema == Some(server(r.sent).schema) && r.state.drawerOpen && r.state.error.None?
    ensures server(r.sent).Failed? ==> r.state.error == Some(FailureText(server(r.sent).error))
    ensures server(r.sent).Failed? ==> r.state.schema == st.schema && r.state.drawerOpen == st.drawerOpen
  {
    var image := UploadedImage(FileInfo(RetryFileName, "", 0), DataUrl(record.image));
    var shown := st.(image := Some(image), prompt := record.prompt);
    var body := SchemaGateway.GenerateBody(Some(record.image), Some(record.prompt));
    assert ',' !in record.image ==> Base64Of(image.preview) == Some(record.image) by {
      if ',' !in record.image {
        Base64OfDataUrl(record.image);
      }
    }
    match server(body)
    case Failed(e) => Retry(shown.(isLoading := false, error := Some(FailureText(e))), body)
    case Generated(schema) =>
      Retry(shown.(isLoading := false, error := None, schema := Some(schema), drawerOpen := true), body)
  }

  /** Retrying a record and then generating from the page sends the same image again,
      and the same prompt when the stored one has no surrounding space. */
  lemma RetryThenGenerateSendsRecord(st: HomeState, record: HistoryRecord, storage: HistoryStore.Storage,
                                     server: SchemaGateway.GenerateBody -> SchemaGateway.Outcome,
                                     id: string, now: int)
    requires ',' !in record.image && Trim(record.prompt) == record.prompt && record.prompt != ""
    ensures var shown := HandleRetry(st, record, server).state;
            HandleGenerate(shown, storage, server, id, now).sent == Some(HandleRetry(st, record, server).sent)
  {
    var shown := HandleRetry(st, record, server).state;
    Base64OfDataUrl(record.image);
    assert Base64Of(shown.image.value.preview) == Some(record.image);
  }

  /** `handleViewHistory`: show exactly the record's schema in the open drawer. */
  function HandleView(st: HomeState, record: HistoryRecord): (r: HomeState)
    ensures r.schema == Some(record.schema) && r.drawerOpen
    ensures r.image == st.image && r.prompt == st.prompt && r.error == st.error && r.isLoading == st.isLoading
  {
    st.(schema := Some(record.schema), drawerOpen := true)
  }

  /** Viewing a record leaves what the next generation sends and stores as it was. */
  lemma ViewKeepsNextGeneration(st: HomeState, record: HistoryRecord, storage: HistoryStore.Storage,
                                server: SchemaGateway.GenerateBody -> SchemaGateway.Outcome,
                                id: string, now: int)
    ensures HandleGenerate(HandleView(st, record), storage, server, id, now).sent ==
            HandleGenerate(st, storage, server, id, now).sent
    ensures HandleGenerate(HandleView(st, record), storage, server, id, now).storage ==
            HandleGenerate(st, storage, server, id, now).storage
  {
  }
}
