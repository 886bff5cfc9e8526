/** The page as a whole: the session of `App` and the media picker it
    renders, driven by what the user can do on screen and by the one
    pending answer of the generation service. */
module Page {
  import opened Wrappers
  import opened AdTypes
  import App
  import ImageUpload
  import GeminiService

  datatype PageState = PageState(session: App.Session, uploader: ImageUpload.Uploader)

  /** The page right after loading. */
  const Loaded: PageState := PageState(App.Initial, ImageUpload.Mount(false))

  /** What can happen on the page: the user's gestures, and the service's
      answer to the generation in flight. */
  datatype Action =
    | DragOver
    | DragLeave
    | Drop(files: seq<File>)
    | Pick(files: seq<File>)
    | Remove
    | Generate
    | Respond(outcome: Result<seq<AdCopy>, GeminiService.Failure>)
    | DismissError

  /** The upload zone is rendered whenever the preview is not. */
  predicate UploadZoneShown(p: PageState)
  {
    !ImageUpload.PreviewShown(p.uploader, p.session.file)
  }

  /** Whether the page offers `a` at all: drag gestures need the upload
      zone, the file dialog also needs it enabled, Remove needs the visible
      remove button, Generate the enabled button, Dismiss the error panel,
      and an answer needs a generation in flight. */
  predicate Available(p: PageState, a: Action)
  {
    match a
    case DragOver => UploadZoneShown(p)
    case DragLeave => UploadZoneShown(p)
    case Drop(_) => UploadZoneShown(p)
    case Pick(_) => UploadZoneShown(p) && !App.UploaderDisabled(p.session)
    case Remove => ImageUpload.RemoveButtonShown(p.uploader, p.session.file, App.UploaderDisabled(p.session))
    case Generate => App.GenerateEnabled(p.session)
    case Respond(_) => p.session.loading == Analyzing
    case DismissError => App.ErrorPanelShown(p.session)
  }

  /** The parent's callbacks: `onImageSelect` is `handleFileSelect` and
      `onClear` is `handleClear`. */
  function Deliver(s: App.Session, n: ImageUpload.Notice): App.Session
  {
    match n
    case Silent => s
    case Selected(f) => App.HandleFileSelect(s, f)
    case Cleared => App.HandleClear(s)
  }

  /** The render that follows every change: the picker gets the new
      `disabled` prop and runs its effect cleanup. */
  function Settle(p: PageState, s: App.Session, after: ImageUpload.Uploader): PageState
  {
    PageState(s, ImageUpload.Rerender(p.uploader, after, App.UploaderDisabled(s)))
  }

  /** One action and the render after it. */
  function Step(p: PageState, a: Action): PageState
  {
    match a
    case DragOver => Settle(p, p.session, ImageUpload.HandleDragOver(p.uploader))
    case DragLeave => Settle(p, p.session, ImageUpload.HandleDragLeave(p.uploader))
    case Drop(files) =>
      var r := ImageUpload.HandleDrop(p.uploader, files);
      Settle(p, Deliver(p.session, r.notice), r.state)
    case Pick(files) =>
      var r := ImageUpload.HandleFileInput(p.uploader, files);
      Settle(p, Deliver(p.session, r.notice), r.state)
    case Remove =>
      var r := ImageUpload.HandleClear(p.uploader);
      Settle(p, Deliver(p.session, r.notice), r.state)
    case Generate => Settle(p, App.BeginGenerate(p.session), p.uploader)
    case Respond(outcome) => Settle(p, App.CompleteGenerate(p.session, outcome), p.uploader)
    case DismissError => Settle(p, App.Dismiss(p.session), p.uploader)
  }

  /** A sequence of actions; one the page does not offer at that moment
      does nothing. */
  function Run(p: PageState, actions: seq<Action>): PageState
    decreases |actions|
  {
    if actions == [] then p
    else Run(if Available(p, actions[0]) then Step(p, actions[0]) else p, actions[1..])
  }

  /** What holds on every page the user can reach: the session is
      reachable, the picker keeps its handle discipline, the picker has a
      preview exactly when the session has a file, that preview was created
      for that very file and `isVideo` describes it, and the memoised
      handlers were built with the current `disabled`. */
  ghost predicate Consistent(p: PageState)
  {
    && App.Reachable(p.session)
    && ImageUpload.HandlesOk(p.uploader)
    && (p.session.file.Some? <==> p.uploader.preview.Some?)
    && (p.uploader.preview.Some? ==>
          ImageUpload.FileOf(p.uploader.log, p.uploader.preview.value) == p.session.file)
    && p.uploader.isVideo == (p.session.file.Some? && ImageUpload.IsVideoType(p.session.file.value.mimeType))
    && p.uploader.memoDisabled == App.UploaderDisabled(p.session)
  }

  lemma LoadedIsConsistent()
    ensures Consistent(Loaded)
  {
  }

  /** Selecting a file through the upload zone, by drop or by dialog. */
  lemma SelectKeepsConsistent(p: PageState, seen: Option<ImageUpload.Handle>, f: File)
    requires Consistent(p) && p.session.file.None?
    requires seen.Some? ==> seen.value in ImageUpload.CreatedIn(p.uploader.log)
    ensures
      var r := ImageUpload.ProcessFile(p.uploader, seen, f);
      Consistent(Settle(p, Deliver(p.session, r.notice), r.state))
  {
    var r := ImageUpload.ProcessFile(p.uploader, seen, f);
    var q := Settle(p, Deliver(p.session, r.notice), r.state);
    ImageUpload.ProcessFileKeepsHandlesOk(p.uploader, seen, f, false);
    assert q.uploader.log == r.state.log;
    assert q.uploader.log[|q.uploader.log| - 1] == ImageUpload.Created(p.uploader.next, f);
  }

  /** Every action the page offers keeps it consistent. */
  lemma StepKeepsConsistent(p: PageState, a: Action)
    requires Consistent(p) && Available(p, a)
    ensures Consistent(Step(p, a))
  {
    var u := p.uploader;
    var disabled := App.UploaderDisabled(p.session);
    ImageUpload.HandlersKeepHandlesOk(u, if a.Drop? || a.Pick? then a.files else [], disabled);
    match a
    case DragOver =>
    case DragLeave =>
    case Drop(files) =>
      if |files| > 0 && ImageUpload.AcceptsType(files[0].mimeType) {
        SelectKeepsConsistent(p.(uploader := u.(isDragging := false)), u.dropSeen, files[0]);
      }
    case Pick(files) =>
      if |files| > 0 {
        SelectKeepsConsistent(p, u.preview, files[0]);
      }
    case Remove =>
    case Generate =>
      ImageUpload.QuietRenderKeepsHandlesOk(u, u, true);
    case Respond(outcome) =>
      ImageUpload.QuietRenderKeepsHandlesOk(u, u, false);
    case DismissError =>
      ImageUpload.QuietRenderKeepsHandlesOk(u, u, disabled);
  }

  /** Every page reached from a consistent one, by any sequence of
      gestures and answers, is consistent. */
  lemma {:induction false} RunKeepsConsistent(p: PageState, actions: seq<Action>)
    requires Consistent(p)
    ensures Consistent(Run(p, actions))
    decreases |actions|
  {
    if actions != [] {
      var q := if Available(p, actions[0]) then Step(p, actions[0]) else p;
      if Available(p, actions[0]) {
        StepKeepsConsistent(p, actions[0]);
      }
      RunKeepsConsistent(q, actions[1..]);
    }
  }

  /** The drop zone and the file dialog belong to the upload zone, which is
      rendered only while there is no preview. So on this page a drag, a drop
      or a pick always starts from the initial session with no preview URL.
      The URL the drop handler captured, if any, is already revoked, so the
      revoke in `processFile` can only repeat an earlier one. A pick creates
      the new URL and revokes nothing. */
  lemma UploadGesturesHaveNoPreview(p: PageState, a: Action)
    requires Consistent(p) && Available(p, a)
    requires a.DragOver? || a.DragLeave? || a.Drop? || a.Pick?
    ensures p.uploader.preview.None? && p.session == App.Initial
    ensures p.uploader.dropSeen.Some? ==> p.uploader.dropSeen.value in ImageUpload.RevokedIn(p.uploader.log)
    ensures a.Pick? && |a.files| > 0 ==>
              Step(p, a).uploader.log == p.uploader.log + [ImageUpload.Created(p.uploader.next, a.files[0])]
  {
  }

  /** One generation at a time: while the service is working, no gesture
      that changes the session or the picker is available, only the
      service's answer. So the file cannot change under the request and no
      second request can start. (The view and copy buttons of the cards still
      on show stay usable; they touch neither.) */
  lemma OnlyTheAnswerWhileAnalyzing(p: PageState, a: Action)
    requires Consistent(p) && p.session.loading == Analyzing
    requires Available(p, a)
    ensures a.Respond?
  {
  }

  /** On a reachable page the preview is shown exactly when a file is
      selected, it shows that file, and the video flag matches its type. */
  lemma PreviewShowsTheSelectedFile(actions: seq<Action>)
    ensures
      var p := Run(Loaded, actions);
      && (ImageUpload.PreviewShown(p.uploader, p.session.file) <==> p.session.file.Some?)
      && (p.session.file.Some? ==>
            ImageUpload.FileOf(p.uploader.log, p.uploader.preview.value) == p.session.file
            && (p.uploader.isVideo <==> ImageUpload.IsVideoType(p.session.file.value.mimeType)))
  {
    LoadedIsConsistent();
    RunKeepsConsistent(Loaded, actions);
  }
}
