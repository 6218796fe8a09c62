/** The `/api/history` route of src/app/api/history/route.ts: `GET` reads the list
    query with defaults, `POST` checks a multipart form and hands it to the store.

    The store behind the route (`getHistoryList`, `saveHistoryItem`) is not part of
    this model: it is a parameter that answers or fails. */
module HistoryApi {
  import opened Wrappers
  import opened JsText
  import opened Types
  import Json

  /** `URLSearchParams`, one value per key. */
  type Query = map<string, string>

  /** The parameters `GET` hands to the store; `None` for a page or limit that
      `parseInt` reads as `NaN`, and for a `success` filter that is `undefined`. */
  datatype ListParams = ListParams(page: Option<int>, limit: Option<int>, search: string, success: Option<bool>)

  /** The answer of either handler: the store's result, or an error status and message. */
  datatype Reply<R> = Answered(result: R) | Rejected(status: nat, error: string)

  const ListFailedError := "Failed to get history list"
  const MissingFieldsError := "Missing required fields"
  const SaveFailedError := "Failed to save history item"

  /** `searchParams.get(key) || fallback`: an absent or empty value gives `fallback`. */
  function GetOr(q: Query, key: string, fallback: string): (v: string)
    ensures key in q && q[key] != "" ==> v == q[key]
    ensures key !in q || q[key] == "" ==> v == fallback
  {
    if key in q && q[key] != "" then q[key] else fallback
  }

  /** The query parsing of `GET`. */
  function ParseListQuery(q: Query): (p: ListParams)
    ensures p.page == ParseInt(GetOr(q, "page", "1"))
    ensures p.limit == ParseInt(GetOr(q, "limit", "12"))
    ensures p.search == GetOr(q, "search", "")
    ensures p.success.Some? <==> "success" in q && q["success"] != ""
    ensures p.success == Some(true) <==> "success" in q && q["success"] == "true"
  {
    ListParams(
      ParseInt(GetOr(q, "page", "1")),
      ParseInt(GetOr(q, "limit", "12")),
      GetOr(q, "search", ""),
      if "success" in q && q["success"] != "" then Some(q["success"] == "true") else None)
  }

  /** The defaults: no page gives page 1, no limit gives 12, no search gives the empty
      string, and no filter leaves `success` undefined. */
  lemma ListQueryDefaults(q: Query)
    ensures "page" !in q ==> ParseListQuery(q).page == Some(1)
    ensures "limit" !in q ==> ParseListQuery(q).limit == Some(12)
    ensures "search" !in q ==> ParseListQuery(q).search == ""
    ensures "success" !in q ==> ParseListQuery(q).success == None
  {
    if "page" !in q {
      assert NatToString(1) == "1";
      ParseIntOfNatToString(1);
    }
    if "limit" !in q {
      assert NatToString(12) == "12";
      ParseIntOfNatToString(12);
    }
  }

  /** `GET`: the parsed parameters go to the store; a store failure is a 500. */
  function HandleList<R>(q: Query, list: ListParams -> Option<R>): (r: Reply<R>)
    ensures r.Answered? <==> list(ParseListQuery(q)).Some?
    ensures r.Answered? ==> Some(r.result) == list(ParseListQuery(q))
    ensures r.Rejected? ==> r == Rejected(500, ListFailedError)
  {
    match list(ParseListQuery(q))
    case Some(result) => Answered(result)
    case None => Rejected(500, ListFailedError)
  }

  /** A multipart form entry: a text field or an uploaded file. */
  datatype FormEntry = Text(s: string) | Upload(file: FileInfo)

  type FormData = map<string, FormEntry>

  /** `formData.get(key)`: `None` stands for `null`. */
  function Get(form: FormData, key: string): Option<FormEntry> {
    if key in form then Some(form[key]) else None
  }

  /** `String(entry)`, which is what `JSON.parse` and `parseInt` read: `null` reads as
      the text "null" and a file as "[object File]". */
  function EntryText(e: Option<FormEntry>): string {
    match e
    case None => "null"
    case Some(Text(s)) => s
    case Some(Upload(_)) => "[object File]"
  }

  /** JavaScript truthiness of an entry: `null` and the empty text are falsy. */
  predicate EntryTruthy(e: Option<FormEntry>) {
    e.Some? && e.value != Text("")
  }

  /** What `POST` hands to `saveHistoryItem`. */
  datatype SaveRequest = SaveRequest(prompt: FormEntry, image: FormEntry, schema: Json.Value, processingTime: Option<int>)

  /** `POST`: parse the schema (a failure is a 500), read the processing time, reject a
      falsy prompt, image or schema with 400, otherwise save. */
  function HandleSave<R>(form: FormData, parse: string -> Option<Json.Value>,
                         save: SaveRequest -> Option<R>): (r: Reply<R>)
    ensures parse(EntryText(Get(form, "schema"))).None? ==> r == Rejected(500, SaveFailedError)
    ensures r == Rejected(400, MissingFieldsError) <==>
              parse(EntryText(Get(form, "schema"))).Some? &&
              (!EntryTruthy(Get(form, "prompt")) || !EntryTruthy(Get(form, "image")) ||
               !Json.Truthy(parse(EntryText(Get(form, "schema"))).value))
    ensures r.Answered? ==>
              EntryTruthy(Get(form, "prompt")) && EntryTruthy(Get(form, "image")) &&
              var schema := parse(EntryText(Get(form, "schema")));
              schema.Some? && Json.Truthy(schema.value) &&
              save(SaveRequest(form["prompt"], form["image"], schema.value,
                               ParseInt(EntryText(Get(form, "processingTime"))))) == Some(r.result)
    ensures EntryTruthy(Get(form, "prompt")) && EntryTruthy(Get(form, "image")) ==>
              var schema := parse(EntryText(Get(form, "schema")));
              schema.Some? && Json.Truthy(schema.value) ==>
                var saved := save(SaveRequest(form["prompt"], form["image"], schema.value,
                                              ParseInt(EntryText(Get(form, "processingTime")))));
                (saved.Some? ==> r == Answered(saved.value)) &&
                (saved.None? ==> r == Rejected(500, SaveFailedError))
    ensures r.Rejected? ==> r.status in {400, 500}
  {
    match parse(EntryText(Get(form, "schema")))
    case None => Rejected(500, SaveFailedError)
    case Some(schema) =>
      var processingTime := ParseInt(EntryText(Get(form, "processingTime")));
      if !EntryTruthy(Get(form, "prompt")) || !EntryTruthy(Get(form, "image")) || !Json.Truthy(schema) then
        Rejected(400, MissingFieldsError)
      else
        match save(SaveRequest(form["prompt"], form["image"], schema, processingTime))
        case Some(item) => Answered(item)
        case None => Rejected(500, SaveFailedError)
  }

  /** With a JSON parser that reads "null" as `null`, a form without a schema field is
      a 400, and the store is never asked. */
  lemma MissingSchemaIsBadRequest<R>(form: FormData, parse: string -> Option<Json.Value>,
                                     save: SaveRequest -> Option<R>)
    requires "schema" !in form && parse("null") == Some(Json.Null)
    ensures HandleSave(form, parse, save) == Rejected(400, MissingFieldsError)
  {
  }

  /** The schema is parsed before the fields are checked: a schema that does not parse
      is a 500 even when the prompt or image is missing. */
  lemma UnparsableSchemaBeforeFieldCheck<R>(form: FormData, parse: string -> Option<Json.Value>,
                                            save: SaveRequest -> Option<R>)
    requires parse(EntryText(Get(form, "schema"))).None?
    ensures HandleSave(form, parse, save).Rejected?
    ensures HandleSave(form, parse, save).status == 500
  {
  }
}
