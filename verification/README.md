# AdCraft core, modelled in Dafny

AdCraft is a single-page app. The user uploads an image or video ad creative
and asks a hosted multimodal model for five ad-copy variations. Each variation
has a tone, a headline, a description, and a primary text in paragraph and
bullet form. The app shows every variation as a card. This project models
the logic behind that page.

- **Session** (`App`, in `app.dfy`). Holds the selected file, the variations
  on show, the loading state (`Idle`, `Analyzing`, `Success`, `Error`) and the
  error message. It also models the handlers that change them, and the
  predicates that enable the generate button, disable the uploader and show
  the placeholder, skeleton, error and result panels.
- **Media picker** (`ImageUpload`, in `image_upload.dfy`). Covers:
  - the drag highlight and the drop filter (image or video MIME types);
  - the file input's change handler, which checks no type;
  - the `isVideo` flag.

  Preview object URLs are abstract handles, and every create and revoke is
  recorded in a log. The React behaviour around the handlers is modelled
  explicitly:
  - the effect cleanup revokes a superseded preview URL;
  - the memoised drag and drop handlers are rebuilt only when `disabled`
    changes, so the drop handler's `processFile` reads the preview it
    captured then.
- **Result card** (`CaptionCard`, in `caption_card.dfy`). Covers the tone
  badge, which is a priority-ordered keyword test on the lower-cased tone
  returning one of five colours. It also covers which primary-text form the
  card shows and copies.
- **Generation client** (`GeminiService`, in `gemini_service.dfy`). Covers:
  - taking `split(',')[1]` of the reader's data URL (section 3 of RFC 2397)
    and passing the file's own MIME type through;
  - the declared response schema;
  - the response rules: an empty text is an error, the parsed list is
    returned unchanged, and every failure is passed on to the caller.

  The file reader, the provider call and `JSON.parse` are parameters.
- **Page** (`Page`, in `page.dfy`). Puts the session and the picker together.
  Every gesture the page offers, and the service's answer, keeps one joint
  invariant. That invariant includes:
  - the session is reachable;
  - the handle discipline holds;
  - the preview exists exactly when a file is selected, and was created for
    that file;
  - the video flag matches the file's type.

  It also proves that while a generation runs, no gesture that changes the
  session or the picker is available; only the service's answer can arrive.
- `Text` holds the JavaScript string operations used above, over `seq<char>`:
  `toLowerCase` on ASCII, `startsWith`, `includes`, and `split` with its
  inverse `join`. `AdTypes` holds `types.ts` and the browser `File`.
  `Wrappers` holds `Option` and `Result`.

`generateAdCopy` only casts the parsed JSON (`services/geminiService.ts:86`)
and checks no field of it. So parsing is an opaque partial function here, and
whatever it returns is passed on unchanged.

## Model

| member | source | states |
|---|---|---|
| AdTypes.FieldValue | types.ts:1-7 | a JSON name denotes a field of a variation exactly when it is one of the five field names |
| AdTypes.FieldNamesDetermineRecord | types.ts:1-7 | the five field names cover the whole record: variations that agree on every named field are equal |
| Text.Lower | components/CaptionCard.tsx:21 | lower-casing keeps the length, lower-cases each ASCII letter in place and leaves no upper-case letter |
| Text.LowerIdempotent | components/CaptionCard.tsx:21 | lower-casing twice is lower-casing once |
| Text.IncludesIff | components/CaptionCard.tsx:22-25 | `includes` holds exactly when the keyword occurs at some position of the text |
| Text.Split | services/geminiService.ts:13 | `split` on a separator gives at least one piece, exactly one when the separator is absent and two or more when present; no piece holds the separator, and joining the pieces with it gives back the string |
| Text.SplitJoin | services/geminiService.ts:13 | splitting a join of separator-free pieces gives back those pieces |
| GeminiService.Base64Data | services/geminiService.ts:13 | `split(',')[1]` is defined exactly when the data URL holds a comma, and never holds a comma itself |
| GeminiService.FileToGenerativePart | services/geminiService.ts:11-17 | the media part carries the file's own MIME type; its data is present exactly when the reader's string holds a comma, and is comma-free |
| GeminiService.ExtractsPayload | services/geminiService.ts:12-13 | for `prefix,payload` with no comma in either part the extracted data is exactly `payload` |
| GeminiService.ReaderResultRoundTrip | services/geminiService.ts:7-22 | the data URL the reader builds from a comma-free media type and a base64 payload yields back that payload, with the file's MIME type |
| GeminiService.GenerateAdCopy | services/geminiService.ts:24-93 | each failure gives its own error: building the client (checked first, before the file is read), a reader failure, a provider failure (with its reason), an empty or missing text, and a parse failure of a non-empty text; the malformed-JSON error arises only from a parse failure; the result is a success exactly when all steps succeed, and then it is the parsed list unchanged |
| GeminiService.EmptyTextIsNeverAResult | services/geminiService.ts:81-84 | an undefined or empty response text is always an error, never a list, and the empty-response error once the client was built |
| GeminiService.SchemaNamesEveryField | services/geminiService.ts:64-76 | the schema's required list and property list each name exactly the five fields of a variation |
| CaptionCard.ToneStyleOf | components/CaptionCard.tsx:20-27 | the badge is the fallback or a style whose keyword occurs in the lower-cased tone, and no style checked earlier has a keyword that occurs |
| CaptionCard.FirstMatchIsUnique | components/CaptionCard.tsx:20-27 | the first-match description determines the badge: any style meeting it is the one returned |
| CaptionCard.CaseInsensitive | components/CaptionCard.tsx:21 | tones equal up to ASCII case get the same badge, and a lower-cased tone gets the badge of the original |
| CaptionCard.SalesWins | components/CaptionCard.tsx:22 | a tone mentioning "direct" or "sales" is emerald whatever else it mentions |
| CaptionCard.FallbackIffNoKeyword | components/CaptionCard.tsx:26 | the blue fallback is given exactly when no keyword of any style occurs |
| CaptionCard.MoreTextRanksNoLower | components/CaptionCard.tsx:22-26 | surrounding a tone with more text can only move its badge earlier in the test order |
| CaptionCard.BadgeBySpelling | components/CaptionCard.tsx:20-27 | a tone gets badge `st` when it mentions the first keyword of `st` and every keyword checked earlier has a letter the tone lacks in both cases |
| CaptionCard.PromptToneBadge | services/geminiService.ts:40-45 | the five tones the prompt asks for get the emerald, orange, purple, blue and rose badges, in that order |
| CaptionCard.StoryBeforeUrgency | components/CaptionCard.tsx:24-25 | "urgency story" gets the story badge, because story is checked before urgency |
| CaptionCard.CurrentPrimaryText | components/CaptionCard.tsx:29 | the paragraph view shows and copies the paragraph field, the bullet view the bullets field |
| CaptionCard.ShowsParagraphUntilBulletsClicked | components/CaptionCard.tsx:12-29 | a card opens on the paragraph view (`InitialMode`) and shows it until the bullets button is clicked; after any clicks it shows the form last asked for |
| ImageUpload.Mount | components/ImageUpload.tsx:19-21 | the picker starts with no preview, no highlight, no video flag and no URL created |
| ImageUpload.HandleDragOver | components/ImageUpload.tsx:30-34 | while disabled nothing changes; otherwise only the highlight turns on |
| ImageUpload.HandleDragLeave | components/ImageUpload.tsx:36-40 | while disabled nothing changes; otherwise only the highlight turns off |
| ImageUpload.HandleDrop | components/ImageUpload.tsx:42-53 | while disabled nothing changes; otherwise the highlight ends, and only the first file is processed, and only when its type starts with "image/" or "video/" |
| ImageUpload.HandleFileInput | components/ImageUpload.tsx:55-59 | the first picked file is processed whatever its type; no file changes nothing |
| ImageUpload.ProcessFile | components/ImageUpload.tsx:61-69 | the earlier URL, if any, is revoked before a fresh handle for the file is created and becomes the preview; the video flag holds exactly for "video/" types; the parent is told the file |
| ImageUpload.HandleClear | components/ImageUpload.tsx:71-78 | the current URL, if any, is revoked; the preview and the video flag are reset and the parent is told |
| ImageUpload.Rerender | components/ImageUpload.tsx:23-28 | after a render the effect cleanup revokes the superseded preview URL, and the memoised handlers take the new `disabled` |
| ImageUpload.Unmount | components/ImageUpload.tsx:23-28 | unmounting revokes the current preview URL |
| ImageUpload.MountHandlesOk | components/ImageUpload.tsx:19-21 | the first render keeps the handle discipline |
| ImageUpload.ProcessFileKeepsHandlesOk | components/ImageUpload.tsx:61-69 | processing a file and settling keeps handles fresh, revokes only created handles, keeps the preview live and leaves no other URL unrevoked |
| ImageUpload.ClearKeepsHandlesOk | components/ImageUpload.tsx:71-78 | removing the media and settling keeps the handle discipline |
| ImageUpload.QuietRenderKeepsHandlesOk | components/ImageUpload.tsx:23-28 | a render that changes neither the preview nor the log keeps the handle discipline |
| ImageUpload.HandlersKeepHandlesOk | components/ImageUpload.tsx:30-78 | every handler of the picker, followed by its render, keeps the handle discipline |
| ImageUpload.UnmountReleasesEverything | components/ImageUpload.tsx:23-28 | after unmounting every created URL has been revoked |
| ImageUpload.ClearRevokesTwice | components/ImageUpload.tsx:71-78 | removing the media revokes its URL twice, in the handler and in the effect cleanup, so release is not exactly-once |
| ImageUpload.PickRevokesBeforeCreating | components/ImageUpload.tsx:61-69 | for the component on its own, picking over a preview logs the revoke before the create, and the cleanup revokes the old URL once more; on this page the case does not arise (see `Page.UploadGesturesHaveNoPreview`) |
| ImageUpload.AcceptsType | components/ImageUpload.tsx:49 | defined as: the type starts with "image/" or "video/" |
| ImageUpload.IsVideoType | components/ImageUpload.tsx:67 | defined as: the type starts with "video/" |
| ImageUpload.PreviewShown | components/ImageUpload.tsx:81 | defined as: the parent has a file and a preview URL exists |
| ImageUpload.RemoveButtonShown | components/ImageUpload.tsx:98 | defined as: the preview is shown and the picker is not disabled |
| App.HandleFileSelect | App.tsx:14-19 | a selected file starts a fresh idle session around it with no results and no error, showing the placeholder with generate enabled |
| App.HandleClear | App.tsx:21-26 | clearing returns to the initial session from any session |
| App.BeginGenerate | App.tsx:28-32 | without a file nothing changes; otherwise the session enters analysing with the error cleared, keeps the file and previous results, disables the uploader and the button and shows the skeletons |
| App.CompleteGenerate | App.tsx:35-42 | success shows exactly the returned list in the success state; failure shows the fixed message in the error state and keeps the previous results; the file never changes |
| App.Dismiss | App.tsx:182 | Dismiss clears the error and hides its panel, leaving file, results and loading state unchanged |
| App.HandleGenerate | App.tsx:28-43 | without a file nothing changes; with one, the file is kept, the session ends in success or error and never stays analysing, it carries an error exactly in the error state, and a failure keeps the earlier results |
| App.UploaderDisabled | App.tsx:76 | defined as: a generation is running |
| App.GenerateEnabled | App.tsx:82 | defined as: a file is selected and no generation is running |
| App.PlaceholderShown | App.tsx:144 | defined as: idle, no results and no truthy error |
| App.SkeletonShown | App.tsx:153 | defined as: a generation is running |
| App.ErrorPanelShown | App.tsx:178 | defined as: the error message is truthy |
| App.ResultsShown | App.tsx:186 | defined as: at least one variation is on show |
| App.GenerateOutcome | App.tsx:28-43 | a whole generation keeps the file and, depending on the service, ends in success with exactly its list and no error, or in the error state with the fixed message and the old results |
| App.HandlersKeepReachable | App.tsx:14-43 | selecting, clearing, starting, completing a running generation and dismissing keep the reachable-session invariant |
| App.PanelsFollowLoadingState | App.tsx:144-184 | in a reachable session the placeholder shows exactly when idle, the skeletons exactly while analysing, the error panel only in the error state, and no two of them at once |
| App.OldResultsStayWhileAnalyzing | App.tsx:153-192 | regenerating after a success keeps the old cards on screen beside the skeletons |
| Page.LoadedIsConsistent | App.tsx:9-12 | the freshly loaded page satisfies the joint invariant of session and picker |
| Page.SelectKeepsConsistent | components/ImageUpload.tsx:61-69 | selecting a file in the upload zone, with the parent told and the page re-rendered, keeps the joint invariant |
| Page.StepKeepsConsistent | App.tsx:72-82 | every gesture the page offers, and the service's answer, keeps the joint invariant |
| Page.RunKeepsConsistent | App.tsx:72-82 | any sequence of gestures and answers from a consistent page ends in a consistent page |
| Page.Available | App.tsx:72-82 | defined as: drag, drop and pick need the upload zone, and a pick also needs it enabled; Remove needs the remove button, Generate the enabled button, Dismiss the error panel; an answer needs a running generation |
| Page.Step | App.tsx:72-77 | defined as: run the handler, pass its notice to the parent's callback, then re-render the picker with the new `disabled` |
| Page.UploadGesturesHaveNoPreview | components/ImageUpload.tsx:113-135 | a drag, drop or pick on the page starts from the initial session with no preview URL; the URL the drop handler captured is already revoked; a pick creates the new URL and revokes nothing |
| Page.OnlyTheAnswerWhileAnalyzing | App.tsx:76-82 | while a generation runs, no gesture that changes the session or the picker is available; only the service's answer can happen |
| Page.PreviewShowsTheSelectedFile | components/ImageUpload.tsx:80-96 | on every reachable page the preview shows exactly when a file is selected; it was created for that file, and the video flag matches the file's type |

## Left out

- The provider SDK, the model name, the prompt text and the API key (`services/geminiService.ts:26-79`) are left out. They are a foreign network API. `generateContent` is a function parameter that may fail; only the five tone names of the prompt are kept.
- The `FileReader` (`services/geminiService.ts:8-21`) is browser I/O. Its outcome is a parameter: the data URL, or `None` for `onerror`.
- `JSON.parse` is an opaque partial function. The source casts its result without checking it, so a JSON value that is not an array of variations is not modelled.
- A failure in building the client is `ClientFailed`, and a failure of the provider call is `RequestFailed`. Each carries a reason string; the real error objects are not modelled.
- The file input's `accept="image/*,video/*"` hint (`components/ImageUpload.tsx:131`) is left to the browser's dialog. The model lets any picked file through, as `handleFileInput` does, since the dialog can be told to show all files.
- The view and copy buttons of cards on show (`components/CaptionCard.tsx:54-78`) are not actions of the page model. They change only card-local state and the clipboard, so they affect neither the session nor the picker.
- The clipboard write and the two-second `setTimeout` reset of the copy marker (`components/CaptionCard.tsx:14-18`) are browser I/O and timers.
- JSX, CSS class strings, icons and animation delays are left out. Badge colours are an enum, and visibility is a set of predicates.
- Text.Lower: `toLowerCase` is modelled on ASCII letters only; Unicode case mapping is not modelled.
- CaptionCard.ToneStyleOf: inherits the ASCII-only lower-casing of `Text.Lower`.
- The `isPro` prop of the picker is declared but never read, so it is not modelled.
- `AnalysisResult` in `types.ts:9-11` is not used by any modelled code.
- `console.error` logging is output only.
- CaptionCard.ShowsParagraphUntilBulletsClicked: speaks of one card instance, which opens on the paragraph view (`InitialMode`). Cards are keyed by their index (`App.tsx:189`), and the old cards stay mounted through a regeneration. So a new variation at an index opens in whatever view the earlier card there was left in. The page's list of card instances is not modelled.
- React's scheduling is reduced to one render after each handler, with batched state updates. Strict-mode double effects are not modelled.
- The pricing modal, feature carousel and instruction input components are markup that forwards callbacks, so they are not modelled.
