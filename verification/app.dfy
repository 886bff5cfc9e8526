/** The page's session: the selected file, the variations on show, the
    loading state and the error message, with the handlers that change
    them and the conditions that enable buttons and show panels. */
module App {
  import opened Wrappers
  import opened AdTypes
  import GeminiService

  /** The message shown whenever a generation fails. */
  const GenerateFailedMessage: string :=
    "Failed to generate ad copy. Please check your file size (videos < 20MB recommended) or try again."

  datatype Session = Session(
    file: Option<File>,
    adCopies: seq<AdCopy>,
    loading: LoadingState,
    error: Option<string>)

  /** The session as the page first renders it. */
  const Initial: Session := Session(None, [], Idle, None)

  /** JavaScript truthiness of the error message: `null` and "" are falsy. */
  predicate HasError(s: Session)
  {
    s.error.Some? && s.error.value != ""
  }

  /** The uploader is disabled while a generation runs. */
  predicate UploaderDisabled(s: Session)
  {
    s.loading == Analyzing
  }

  /** The generate button is enabled with a file selected and no
      generation running. */
  predicate GenerateEnabled(s: Session)
  {
    s.file.Some? && s.loading != Analyzing
  }

  /** The empty-state placeholder. */
  predicate PlaceholderShown(s: Session)
  {
    s.loading == Idle && |s.adCopies| == 0 && !HasError(s)
  }

  /** The loading skeletons. */
  predicate SkeletonShown(s: Session)
  {
    s.loading == Analyzing
  }

  /** The error panel with its Dismiss button. */
  predicate ErrorPanelShown(s: Session)
  {
    HasError(s)
  }

  /** The result cards and the "N options generated" count. */
  predicate ResultsShown(s: Session)
  {
    |s.adCopies| > 0
  }

  /** `handleFileSelect`: a new file starts a fresh session around it. */
  function HandleFileSelect(s: Session, f: File): (t: Session)
    ensures t.file == Some(f) && t.adCopies == [] && t.error.None? && t.loading == Idle
    ensures PlaceholderShown(t) && GenerateEnabled(t)
    ensures !SkeletonShown(t) && !ErrorPanelShown(t) && !ResultsShown(t)
  {
    Session(Some(f), [], Idle, None)
  }

  /** `handleClear`: back to the session the page started with, whatever
      came before. */
  function HandleClear(s: Session): (t: Session)
    ensures t == Initial
    ensures t.file.None? && t.adCopies == [] && t.error.None? && t.loading == Idle
    ensures PlaceholderShown(t) && !GenerateEnabled(t)
  {
    Session(None, [], Idle, None)
  }

  /** The synchronous start of `handleGenerate`: nothing without a file;
      otherwise enter the analysing state with the error cleared, leaving
      the file and the previous variations as they were. */
  function BeginGenerate(s: Session): (t: Session)
    ensures s.file.None? ==> t == s
    ensures s.file.Some? ==>
              t.loading == Analyzing && t.error.None? && t.file == s.file && t.adCopies == s.adCopies
    ensures s.file.Some? ==>
              SkeletonShown(t) && UploaderDisabled(t) && !GenerateEnabled(t) && !ErrorPanelShown(t) &&
              !PlaceholderShown(t) && (ResultsShown(t) <==> ResultsShown(s))
  {
    if s.file.None? then s else s.(loading := Analyzing, error := None)
  }

  /** The end of `handleGenerate`, once the service has answered: on success
      the variations become exactly the returned list; on failure the fixed
      message is shown and the previous variations stay. */
  function CompleteGenerate(s: Session, outcome: Result<seq<AdCopy>, GeminiService.Failure>): (t: Session)
    ensures t.file == s.file
    ensures outcome.Ok? ==> t.adCopies == outcome.value && t.loading == Success && t.error == s.error
    ensures outcome.Err? ==>
              t.adCopies == s.adCopies && t.loading == Error && t.error == Some(GenerateFailedMessage)
    ensures outcome.Err? ==> ErrorPanelShown(t) && !SkeletonShown(t) && !PlaceholderShown(t)
  {
    match outcome
    case Ok(results) => s.(adCopies := results, loading := Success)
    case Err(_) => s.(error := Some(GenerateFailedMessage), loading := Error)
  }

  /** The Dismiss button: clear the error and nothing else. */
  function Dismiss(s: Session): (t: Session)
    ensures t.error.None? && !ErrorPanelShown(t)
    ensures t.file == s.file && t.adCopies == s.adCopies && t.loading == s.loading
  {
    s.(error := None)
  }

  /** The whole of `handleGenerate` for one file: start, call the service
      with the outcomes of building the client and of reading the file, the
      provider and the parser, and finish.
      Once the call settles the session is never left analysing, and it
      carries an error exactly when it ends in the error state. */
  function HandleGenerate(
    s: Session,
    clientError: Option<string>,
    readerResult: Option<string>,
    generateContent: GeminiService.Request -> Result<Option<string>, string>,
    parse: string -> Option<seq<AdCopy>>): (t: Session)
    ensures s.file.None? ==> t == s
    ensures s.file.Some? ==> t.file == s.file && (t.loading == Success || t.loading == Error)
    ensures s.file.Some? ==> (t.error.None? <==> t.loading == Success)
    ensures s.file.Some? && t.loading == Error ==> t.adCopies == s.adCopies
  {
    if s.file.None? then s
    else
      CompleteGenerate(
        BeginGenerate(s),
        GeminiService.GenerateAdCopy(s.file.value, clientError, readerResult, generateContent, parse))
  }

  /** A generation keeps the file; success shows exactly what the service
      returned with no error; failure shows the fixed message and keeps the
      variations from before the call; without a file nothing happens. */
  lemma GenerateOutcome(
    s: Session,
    clientError: Option<string>,
    readerResult: Option<string>,
    generateContent: GeminiService.Request -> Result<Option<string>, string>,
    parse: string -> Option<seq<AdCopy>>)
    ensures s.file.None? ==> HandleGenerate(s, clientError, readerResult, generateContent, parse) == s
    ensures s.file.Some? ==>
      var t := HandleGenerate(s, clientError, readerResult, generateContent, parse);
      var r := GeminiService.GenerateAdCopy(s.file.value, clientError, readerResult, generateContent, parse);
      && t.file == s.file
      && (r.Ok? ==> t.adCopies == r.value && t.loading == Success && t.error.None?)
      && (r.Err? ==> t.adCopies == s.adCopies && t.loading == Error && t.error == Some(GenerateFailedMessage))
  {
  }

  /** What holds in every session the page can reach: without a file the
      session is the initial one; a running generation has no error; an
      error is the fixed message and comes with the error state; the idle
      state has neither variations nor an error; a session past the idle
      state has a file. */
  ghost predicate Reachable(s: Session)
  {
    && (s.file.None? ==> s == Initial)
    && (s.loading == Analyzing ==> s.error.None?)
    && (s.error.Some? ==> s.error == Some(GenerateFailedMessage) && s.loading == Error)
    && (s.loading == Idle ==> s.adCopies == [] && s.error.None?)
  }

  /** Every handler keeps `Reachable` when it can fire: selecting, clearing,
      starting and dismissing always can; a completion arrives only while a
      generation runs. */
  lemma HandlersKeepReachable(s: Session, f: File, outcome: Result<seq<AdCopy>, GeminiService.Failure>)
    requires Reachable(s)
    ensures Reachable(HandleFileSelect(s, f))
    ensures Reachable(HandleClear(s))
    ensures Reachable(BeginGenerate(s))
    ensures s.loading == Analyzing ==> Reachable(CompleteGenerate(s, outcome))
    ensures Reachable(Dismiss(s))
  {
  }

  /** In a reachable session the panels agree with the loading state: the
      placeholder is shown exactly when idle, the skeletons exactly while
      analysing, the error panel only in the error state, and never two of
      them at once. */
  lemma PanelsFollowLoadingState(s: Session)
    requires Reachable(s)
    ensures PlaceholderShown(s) <==> s.loading == Idle
    ensures SkeletonShown(s) <==> s.loading == Analyzing
    ensures ErrorPanelShown(s) ==> s.loading == Error
    ensures !(PlaceholderShown(s) && SkeletonShown(s))
    ensures !(PlaceholderShown(s) && ErrorPanelShown(s))
    ensures !(SkeletonShown(s) && ErrorPanelShown(s))
    ensures PlaceholderShown(s) ==> !ResultsShown(s)
  {
  }

  /** Regenerating from a successful session keeps the old cards on screen
      next to the skeletons until the new answer arrives. */
  lemma OldResultsStayWhileAnalyzing(s: Session)
    requires s.file.Some? && s.loading == Success && |s.adCopies| > 0
    ensures SkeletonShown(BeginGenerate(s)) && ResultsShown(BeginGenerate(s))
    ensures BeginGenerate(s).adCopies == s.adCopies
  {
  }
}
