# formily-design, modelled in Dafny

formily-design is a Next.js application. The user uploads a picture of a form and describes it. The server asks a multimodal completion service for a Formily 2.x JSON schema and returns it. The browser keeps the last ten successful generations in `localStorage` and can also browse a remote history list.

This project models the logic behind those steps as pure Dafny functions over immutable data, with contracts and lemmas about them.

| file | module | what it models |
|---|---|---|
| `wrappers.dfy` | `Wrappers` | `Option` (`None` stands for `null`, `undefined` or `NaN`) |
| `json.dfy` | `Json` | parsed JSON values and JavaScript truthiness |
| `types.dfy` | `Types` | the records of `src/types/index.ts` |
| `js_text.dfy` | `JsText` | `trim` and `\s`, `split`, `toString` on whole numbers, `parseInt` |
| `history_store.dfy` | `HistoryStore` | `HistoryManager` of `src/lib/history.ts` over an abstract `localStorage` |
| `fenced_json.dfy` | `FencedJson` | the regular-expression extraction of JSON from a completion |
| `schema_gateway.dfy` | `SchemaGateway` | `POST /api/generate-schema`: the validation and error ladder and one upstream call |
| `history_api.dfy` | `HistoryApi` | `GET` and `POST /api/history`: query defaults, the tri-state `success` filter, the required-field check |
| `relative_time.dfy` | `RelativeTime` | `getTimeAgo` and `formatTime` |
| `history_page.dfy` | `HistoryPage` | the history browser: query building, page resets, "load more", delete |
| `history_panel.dfy` | `HistoryPanel` | prompt previews, visible controls, "clear all" |
| `image_uploader.dfy` | `ImageUploader` | file type and size checks, drop handling, removal |
| `home_page.dfy` | `HomePage` | the submit guard, base64 extraction, the success-only history write, retry and view |

Several things the application gets from outside are parameters of the model:
- the clock (`now`);
- generated ids;
- `JSON.parse` (a partial function returning `Option`);
- the completion service (a function from the call to its status and content, or to the message of an error thrown while reaching it);
- the schema route as the page sees it (a function from request body to outcome);
- the remote history store (a partial function);
- what `FileReader` produces.

The JSON text kept in `localStorage` is abstracted to the record list it encodes, or to text that does not parse.

The extraction regular expression is modelled as a backtracking engine runs it:
- the leftmost start wins;
- the leading `\s*` is greedy;
- the capture group is lazy.

`FencedJson.CaptureIsBetween` then proves that this equals the plain reading: the trimmed text between the first opening marker and the next fence.

## Model

| member | source | states |
|---|---|---|
| `HistoryStore.Stamp` | src/lib/history.ts:24-28 | The new record copies image, prompt, schema and success from the caller. It takes the supplied id and creation time. |
| `HistoryStore.GetHistory` | src/lib/history.ts:7-17 | A stored record list is read as it is. A missing key or text that does not parse reads as the empty list. |
| `HistoryStore.AddHistory` | src/lib/history.ts:19-42 | The new record is at index 0, and the stored list then holds between 1 and 10 records. The records after index 0 are exactly the previous list's first min(length, 9), in the same order. No other storage key changes. |
| `HistoryStore.AddIsCap` | src/lib/history.ts:31-36 | One add is "put in front, then cut to ten". |
| `HistoryStore.CapOfCap` | src/lib/history.ts:34-36 | Cutting an already-cut list after prepending is the same as cutting once. |
| `HistoryStore.AddAllKeepsMostRecent` | src/lib/history.ts:19-42 | After any non-empty run of adds, the list is the new records, newest first, followed by the older list, all cut to ten. |
| `HistoryStore.Without` | src/lib/history.ts:49 | The filter never lengthens the list and leaves no record with the removed id. |
| `HistoryStore.WithoutMembers` | src/lib/history.ts:49 | A record survives the filter exactly when it was in the list and has a different id. |
| `HistoryStore.RemoveHistory` | src/lib/history.ts:44-54 | After removal, a record is stored exactly when it was stored before and has a different id. The stored list is `Without` of the old one, so `RemoveKeepsOrder` applies to it. Other storage keys are untouched. |
| `HistoryStore.RemoveKeepsOrder` | src/lib/history.ts:48-50 | The records that remain sit at strictly increasing positions of the old list, and every record with another id is among them, so the relative order is kept. |
| `HistoryStore.RemoveAbsentIsIdentity` | src/lib/history.ts:49 | Removing an id no record has leaves the list unchanged. |
| `HistoryStore.ClearHistory` | src/lib/history.ts:56-64 | The history key is gone and nothing else changes. |
| `HistoryStore.ClearEmptiesHistory` | src/lib/history.ts:7-17 | After a clear the list reads as empty, and so does a stored text that does not parse. |
| `HistoryStore.FirstWithId` | src/lib/history.ts:68 | `find`: the position found holds the id, and no earlier position does. |
| `HistoryStore.GetHistoryById` | src/lib/history.ts:66-69 | The result is null exactly when no stored record has the id. Otherwise it is the first stored record with that id. |
| `HistoryStore.RemoveThenLookup` | src/lib/history.ts:44-69 | A removed id can no longer be looked up. |
| `HistoryStore.AddThenLookup` | src/lib/history.ts:19-69 | A freshly added record is found by its id. |
| `JsText.TrimStart` | src/app/api/generate-schema/route.ts:138 | The result is a suffix of the input. Everything dropped is white space, and the result does not start with white space. |
| `JsText.TrimEnd` | src/app/api/generate-schema/route.ts:138 | The result is a prefix of the input. Everything dropped is white space, and the result does not end with white space. |
| `JsText.Trim` | src/app/api/generate-schema/route.ts:138 | The result neither starts nor ends with white space. `TrimIsInfix`, `TrimEmptyIffAllSpace` and `TrimIdempotent` relate it back to its input. |
| `JsText.TrimIsInfix` | src/app/api/generate-schema/route.ts:138 | The trimmed text is the infix of the input that starts where `trimStart` cuts, and only white space lies before and after it. |
| `JsText.TrimEmptyIffAllSpace` | src/app/page.tsx:73 | A prompt trims to the empty string exactly when it is all white space. |
| `JsText.TrimIdempotent` | src/app/api/generate-schema/route.ts:138 | Trimming a trimmed text changes nothing. |
| `JsText.Split` | src/app/page.tsx:83 | `split(',')` yields at least one piece, and no piece contains a comma. |
| `JsText.JoinSplit` | src/app/page.tsx:83 | Joining the pieces with the separator gives back the original string. |
| `JsText.SplitAtSeparator` | src/app/page.tsx:83 | When `a` has no separator, splitting `a + sep + b` gives `a` as the first piece, followed by the pieces of `b`. |
| `JsText.SplitWithoutSeparator` | src/app/page.tsx:83 | A string without the separator splits into itself alone. |
| `JsText.NatToString` | src/app/history/page.tsx:22 | `page.toString()` is non-empty decimal digits with no leading zero. |
| `JsText.NatToStringValue` | src/app/history/page.tsx:22 | The digits written for n spell n. |
| `JsText.ParseIntOfDigits` | src/app/api/history/route.ts:8-9 | `parseInt` of a string of decimal digits is the number they spell. |
| `JsText.ParseInt` | src/app/api/history/route.ts:8-9 | A blank or all-white-space text reads as `NaN`. A negative result needs a minus sign after the leading white space. |
| `JsText.ParseIntOfNatToString` | src/app/api/history/route.ts:8 | `parseInt` reads back what `toString` wrote. |
| `FencedJson.NextFence` | src/app/api/generate-schema/route.ts:133-134 | The result is the first three-backtick fence at or after a position, or none when no fence follows. |
| `FencedJson.NextMarker` | src/app/api/generate-schema/route.ts:133-134 | The result is the first opening marker (```` ```json ```` or ```` ``` ````) at or after a position, or none when no marker follows. |
| `FencedJson.SkipSpace` | src/app/api/generate-schema/route.ts:133 | The greedy `\s*` consumes only white space and stops at the first other character. |
| `FencedJson.LazyEnd` | src/app/api/generate-schema/route.ts:133 | The lazy group ends at the first position from which white space and then a fence follow. |
| `FencedJson.MatchStart` | src/app/api/generate-schema/route.ts:133-134 | The match starts at the leftmost marker that has a fence somewhere after it. |
| `FencedJson.MatchStartIsFirst` | src/app/api/generate-schema/route.ts:133-134 | The expression matches exactly when a fence follows the first marker. |
| `FencedJson.MatchAtFirstMarker` | src/app/api/generate-schema/route.ts:133-134 | When the expression matches, it starts at the first marker. |
| `FencedJson.SpaceAndLazyTrim` | src/app/api/generate-schema/route.ts:133 | After the marker, the greedy `\s*` and the lazy group pick out the text before the next fence, with its surrounding white space excluded. |
| `FencedJson.CaptureIsBetween` | src/app/api/generate-schema/route.ts:133-135 | The capture of the expression is the text between the first marker and the next fence, with the surrounding white space excluded. |
| `FencedJson.JsonText` | src/app/api/generate-schema/route.ts:133-138 | The text handed to `JSON.parse` is always trimmed. `JsonTextPreference` states which text it is. |
| `FencedJson.BetweenTrimmed` | src/app/api/generate-schema/route.ts:137-138 | A capture is already trimmed. |
| `FencedJson.JsonTextPreference` | src/app/api/generate-schema/route.ts:133-138 | A non-empty ```` ```json ```` block is parsed first. Failing that, a non-empty plain fenced block is parsed. Otherwise the whole content is parsed. An empty capture falls back to the whole content, and all of these are trimmed. |
| `FencedJson.FencedBlockInProse` | src/app/api/generate-schema/route.ts:133-138 | A ```` ```json ```` block in backtick-free prose is parsed as its own trimmed body, whatever follows it. |
| `FencedJson.UnfencedContent` | src/app/api/generate-schema/route.ts:135-138 | Content without backticks is parsed whole, trimmed. |
| `SchemaGateway.BuildCall` | src/app/api/generate-schema/route.ts:79-96 | The call carries the key unchanged. The image URL is `data:image/png;base64,` followed by the input unchanged. The text is the intro `图片描述：`, then the prompt unchanged, then the closing request, each pinned at its own position. |
| `SchemaGateway.UpstreamError` | src/app/api/generate-schema/route.ts:118-120 | The message is the fixed prefix followed by the status's decimal digits (`NatToString`), which `UpstreamErrorCarriesStatus` reads back as the status. |
| `SchemaGateway.Interpret` | src/app/api/generate-schema/route.ts:118-159 | Success happens exactly when the service answered, its status is ok, the content is present, and the extracted text parses; it then gives status 200 with that schema. Each failure gives a 500 with its own message: a thrown error gives its message, a non-ok status gives the status message, missing content gives the empty-content message, and a parse failure gives the invalid-schema message. |
| `SchemaGateway.Handle` | src/app/api/generate-schema/route.ts:4-161 | The response is 400 exactly when the image or prompt is missing, and that check comes before the key check. An upstream call is made exactly when both fields and the key are present, and it is the built call. Its reply then decides the response, as `Interpret` states. A missing key gives 500. The status is 200 exactly on success, and always one of 200, 400 or 500. |
| `SchemaGateway.UpstreamErrorCarriesStatus` | src/app/api/generate-schema/route.ts:118-120 | The upstream status can be read back from the error message with `parseInt`. |
| `SchemaGateway.FencedAnswerIsParsed` | src/app/api/generate-schema/route.ts:122-149 | An ok text answer holding a ```` ```json ```` block in prose succeeds exactly when that block's trimmed body parses. |
| `HistoryApi.GetOr` | src/app/api/history/route.ts:8-10 | An absent or empty value gives the fallback, and any other value is returned as it is. |
| `HistoryApi.ParseListQuery` | src/app/api/history/route.ts:7-18 | Page and limit are `parseInt` of the value or of the defaults "1" and "12". Search is the value or "". `success` is defined exactly when it is non-empty, and true exactly when it is "true". |
| `HistoryApi.ListQueryDefaults` | src/app/api/history/route.ts:8-11 | With no page the page is 1. With no limit the limit is 12. With no search the search is "". With no filter `success` is undefined. |
| `HistoryApi.HandleList` | src/app/api/history/route.ts:5-30 | The store's answer is returned when there is one. A failure is a 500 with the fixed message. |
| `HistoryApi.HandleSave` | src/app/api/history/route.ts:33-63 | A schema that does not parse is a 500. The response is 400 exactly when the schema parses and the prompt, image or schema is falsy. With all three truthy, the store is asked to save the prompt, the image, the parsed schema and the parsed processing time. Its saved item is then the answer, and a store failure is a 500. Nothing else is answered. |
| `HistoryApi.MissingSchemaIsBadRequest` | src/app/api/history/route.ts:38-46 | A form without a schema reads as `null` and is a 400. |
| `HistoryApi.UnparsableSchemaBeforeFieldCheck` | src/app/api/history/route.ts:38-62 | An unparsable schema is a 500 even when other fields are missing. |
| `RelativeTime.TimeAgo` | src/app/history/page.tsx:76-87 | From one day: whole days. From one hour: whole hours. From one minute: whole minutes. Otherwise "刚刚". |
| `RelativeTime.FormatTime` | src/components/HistoryItem.tsx:26-41 | A date is shown exactly from seven days on. |
| `RelativeTime.FormatTimeAgreesWithTimeAgo` | src/components/HistoryItem.tsx:35-38 | Under seven days, `formatTime` shows the same text as `getTimeAgo`. |
| `RelativeTime.FutureIsJustNow` | src/app/history/page.tsx:78-86 | A timestamp in the future reads "刚刚" in both. |
| `RelativeTime.TimeAgoCountsInRange` | src/app/history/page.tsx:79-85 | The shown count is at least 1, under 60 for minutes, and under 24 for hours. |
| `HistoryPage.FetchQuery` | src/app/history/page.tsx:18-26 | The query always has the page and a limit of "12". It has the search exactly when the search is non-empty, and the filter exactly when it is defined. The filter's value is "true" or "false", and "true" exactly for a true filter. It has no other key. |
| `HistoryPage.FetchQueryRoundTrip` | src/app/history/page.tsx:21-26 | The route reads back exactly the page, a limit of 12, the search and the filter the browser sent. |
| `HistoryPage.FetchedListReply` | src/app/api/history/route.ts:5-30 | The route's answer to the browser's query is the store's answer for the browser's own page, search and filter with 12 per page. A store failure is the fixed 500. |
| `HistoryPage.CurrentQueryRoundTrip` | src/app/history/page.tsx:40-42 | The effect's fetch is read by the route as the current page, search and filter. |
| `HistoryPage.InitialFetch` | src/app/history/page.tsx:14-16 | The first fetch asks for page 1 of everything, 12 per page. |
| `HistoryPage.HandleSearch` | src/app/history/page.tsx:44-47 | A new search term resets to page 1 and keeps the filter. |
| `HistoryPage.HandleFilterSuccess` | src/app/history/page.tsx:49-52 | A new filter resets to page 1 and keeps the search. |
| `HistoryPage.LoadMore` | src/app/history/page.tsx:244-247 | "Load more" is offered exactly when the loaded answer says `hasMore`. It asks for the next page, with the same search and filter. |
| `HistoryPage.HandleDelete` | src/app/history/page.tsx:54-69 | A delete is sent only after confirmation. A refetch follows exactly when the server answers ok, and it is for the same page, search and filter. |
| `HistoryPanel.PromptPreview` | src/components/HistoryPanel.tsx:123-125 | A prompt of at most 100 characters is shown unchanged. A longer one shows its first 100 characters and "...", 103 in all. |
| `HistoryPanel.PreviewKeepsPrefix` | src/components/HistoryPanel.tsx:123-125 | The preview begins with the prompt's first min(100, length) characters. |
| `HistoryPanel.PreviewIsPromptIff` | src/components/HistoryPanel.tsx:123-125 | The preview equals the prompt exactly when the prompt is short, or is 100 characters followed by "...". |
| `HistoryPanel.PreviewIdempotent` | src/components/HistoryPanel.tsx:123-125 | Previewing a preview changes nothing. |
| `HistoryPanel.ClearAll` | src/components/HistoryPanel.tsx:27-33 | Only the key `formily_local_history` is removed, and the parent's search is reset to "". |
| `HistoryPanel.ClearAllKeepsStoredHistory` | src/components/HistoryPanel.tsx:29 | The key cleared is not the key `HistoryManager` uses, so the stored history is unchanged. |
| `HistoryPanel.Visible` | src/components/HistoryPanel.tsx:62-89 | The clear button and the search box show exactly when the list is non-empty. The clear-search button shows exactly when the search box does and the term is non-empty. |
| `HistoryPanel.ClearSearchFollowsControls` | src/components/HistoryPanel.tsx:27-89 | The clear-search button never shows without the clear button. After "clear all" it is hidden, whatever the list. |
| `ImageUploader.ProcessFile` | src/components/ImageUploader.tsx:24-45 | A non-image type is rejected with its alert before size is looked at. A file over 5 MiB is rejected with the size alert. A rejection changes nothing. Otherwise `{file, preview}` is both kept and handed to the parent. |
| `ImageUploader.SizeLimitIsInclusive` | src/components/ImageUploader.tsx:32-35 | Exactly 5 MiB is accepted, and one byte more is refused. |
| `ImageUploader.OnInputChange` | src/components/ImageUploader.tsx:17-22 | The first chosen file is processed. No file changes nothing. |
| `ImageUploader.OnDrop` | src/components/ImageUploader.tsx:55-65 | Only the first dropped file is considered, and only if it is an image. A drop never raises the type alert. |
| `ImageUploader.DropReadsFirstFileOnly` | src/components/ImageUploader.tsx:58-64 | Files after the first make no difference. |
| `ImageUploader.RemoveImage` | src/components/ImageUploader.tsx:47-53 | Removal clears the uploader's image and tells the parent `null`. |
| `ImageUploader.EventsKeepInSync` | src/components/ImageUploader.tsx:38-49 | Every event of the uploader's own keeps its image and the parent's copy equal. |
| `HomePage.CanSubmit` | src/app/page.tsx:119 | Submitting is possible exactly when there is an image, the prompt is not all white space, and no request is under way. |
| `HomePage.Base64Of` | src/app/page.tsx:83 | There is a payload exactly when the preview has a comma, and the payload holds no comma. |
| `HomePage.Base64OfSecondPiece` | src/app/page.tsx:83 | For any preview written as a comma-free head, a comma, a comma-free piece, then nothing or text starting with a comma, the payload is that piece. Every preview with a comma has this shape, so the payload is exactly `split(',')[1]`. |
| `HomePage.Base64OfDataUrl` | src/app/page.tsx:25-28 | For a comma-free base64 string b, the payload of `data:image/png;base64,` + b is b. A retried image is therefore the stored one. |
| `HomePage.FailureText` | src/app/page.tsx:98-99 | The error shown is never empty. It is the route's own message when there is one, and `生成失败` when that message is empty. |
| `HomePage.HandleGenerate` | src/app/page.tsx:72-117 | Nothing is sent exactly when there is no image or the prompt is blank, and the guard error is then shown. Otherwise the base64 payload and the trimmed prompt are sent. A failure writes nothing and changes only the error shown and the loading flag. A success adds exactly one record through `HistoryManager.addHistory`, which keeps the older records behind it. That record holds the payload, the trimmed prompt, the schema and `success` true. The drawer then opens on the schema. Once something is sent, the image and prompt on the page stay as they were. |
| `HomePage.CanSubmitPassesGuard` | src/app/page.tsx:119 | A page that can submit always gets past the guard. |
| `HomePage.RecordedSuccessWasSentUpstream` | src/app/page.tsx:98-108 | Against the real route, a recorded success means the completion service was called with the stored, non-empty image payload and the stored prompt. |
| `HomePage.HandleRetry` | src/app/page.tsx:23-70 | A retry sets the page's image, named `history-image.png` with preview `data:image/png;base64,` followed by the stored image, and the page's prompt to the record's prompt. It sends both as stored, with no guard, no trimming and no history write. A success opens the drawer on the new schema. A failure shows the error and leaves the schema and the drawer as they were. |
| `HomePage.RetryThenGenerateSendsRecord` | src/app/page.tsx:23-32 | After a retry, generating again sends the same image, and the same prompt when that prompt is already trimmed. |
| `HomePage.HandleView` | src/app/page.tsx:35-38 | Viewing shows exactly the record's schema in the open drawer and changes nothing else. |
| `HomePage.ViewKeepsNextGeneration` | src/app/page.tsx:35-38 | Viewing a record changes neither what the next generation sends nor what it stores. |

## Left out

- The `typeof window === 'undefined'` early returns of `src/lib/history.ts`: the model is the browser, where `window` exists.
- Failures of `localStorage.setItem` and `removeItem` (quota, disabled storage), which the source catches and logs: writes always succeed here.
- A stored JSON text that parses to something other than an array of records: storage holds either a record list or text that does not parse.
- `HistoryManager.generateId` and `Date.now`: ids and times are parameters, and no lemma needs an id to be fresh.
- `JSON.parse` and `JSON.stringify`: the parser is a parameter, and printing is not modelled.
- The shape of the upstream JSON body: the completion service parameter answers with the status and `choices[0]?.message?.content`, or with the message of the error thrown on the way there. That error can be a rejected `fetch`, a body that is not JSON, or a body without `choices`. The messages themselves come from the runtime.
- A request body that is not JSON (`request.json()` failing) in either route, and a form that cannot be read.
- The system prompt, model name, `max_tokens`, `temperature` and extra headers of the upstream request: they are fixed text that carries no logic.
- `getHistoryList` and `saveHistoryItem`, which `src/app/api/history/route.ts` imports: they are not part of this model and appear as a parameter that answers or fails.
- The `DELETE` route under `src/app/api/history/[id]/` and the detail page under `src/app/history/[id]/` are not part of this model. A delete is whether the user confirmed and whether the server answered ok.
- The asynchronous `FileReader`: the data URL it yields is a parameter, and the read completes at once.
- The uploader keeps its own copy of the image, and the home page only listens to it. A history retry sets the page's image without telling the uploader, so after a retry the uploader can show a different image from the one the page sends, or none. `ImageUploader.EventsKeepInSync` covers only the uploader's own events. `PromptInput` has the same mismatch: it keeps its own prompt text (src/components/PromptInput.tsx:13,49) and the page passes it only `onPromptChange` (src/app/page.tsx:191-194), so a retry changes the page's prompt but not the text shown in the box.
- Alert pop-ups as such (the alert text is modelled), the drag-over highlight, and resetting the file input's value.
- Locale date formatting (`toLocaleString`, `toLocaleDateString`): a date display is `AbsoluteDate(timestamp)`.
- The history page's loading flag, its failed-fetch handling, and the shape of the list answer beyond `hasMore`.
- The `getTimeAgo` of `src/components/HistoryPanel.tsx` is character-for-character the one of `src/app/history/page.tsx`, and both are `RelativeTime.TimeAgo`.
- The home page mounts the history panel with only `onRetry` and `onView` (src/app/page.tsx:252-255): no `localHistory`, `onDelete`, `onSearch` or `searchTerm`. The panel reads `localHistory.length` while rendering (src/components/HistoryPanel.tsx:58), which throws on the missing list, so as written the panel never renders, and its clear-all would throw at `onSearch('')` (src/components/HistoryPanel.tsx:32). The home page can therefore reach neither the panel's preview, controls and clear-all nor `HomePage.HandleRetry`, `HomePage.HandleView` and `HomePage.RetryThenGenerateSendsRecord`. The model treats `HistoryPanel` as a component that receives the props it declares, and retry and view as the handlers the home page defines, which the page as written never triggers. The panel's delete button only calls back to a parent that does not exist here, so it is not modelled.
- HomePage.HandleGenerate: when the preview has no comma the source stores `image: undefined`, which the model stores as the empty string. `HomePage.RecordedSuccessWasSentUpstream` shows that the real route never answers such a request with success.
- HomePage.HandleGenerate: a rejected `fetch` or a response body that is not JSON (src/app/page.tsx:85-96) throws, and the catch (src/app/page.tsx:112-113) shows the error's message and writes nothing. The `server` parameter returns only the route's outcomes, so such an error is covered only as a `Failed` outcome carrying its message. An error with an empty message would show as the empty string in the source and as `生成失败` here.
- HomePage.HandleRetry: the same holds for `handleGenerateSchemaFromHistory` (src/app/page.tsx:41-70). A thrown `fetch` or `response.json()` error is covered only as a `Failed` outcome carrying its message.
- Presentational components (schema drawer, code tab, form renderer, spinner) and `PromptInput`, whose 500-character limit is enforced by the browser.
- JavaScript strings count UTF-16 code units, and a character outside the Basic Multilingual Plane counts as two; here each `char` counts as one, so the 100-character preview cut is exact only for text inside that plane.
- Number precision: times, sizes and pages are unbounded integers, `parseInt` of a very long digit string is exact here, and `parseInt("-0")` is 0, not −0.
