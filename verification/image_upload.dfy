/** The media picker: which dropped or picked file it accepts, whether the
    preview is a video, and the object-URL handles it creates for the
    preview and revokes again. Object URLs are abstract handles; every
    `createObjectURL` and `revokeObjectURL` is an entry in a log. */
module ImageUpload {
  import opened Wrappers
  import opened AdTypes
  import Text

  /** An object URL. Each creation yields a handle never used before. */
  type Handle = nat

  /** One call into the URL registry. */
  datatype UrlEvent = Created(handle: Handle, file: File) | Revoked(handle: Handle)

  /** The component's state.
      - `preview`: the `previewUrl` state.
      - `memoDisabled`: the `disabled` value the memoised drag and drop
        handlers were built with; React rebuilds them when it changes.
      - `dropSeen`: the `previewUrl` the memoised drop handler's
        `processFile` reads, captured at that rebuild.
      - `next`: the next fresh handle; `log`: every create and revoke so far. */
  datatype Uploader = Uploader(
    isDragging: bool,
    preview: Option<Handle>,
    isVideo: bool,
    memoDisabled: bool,
    dropSeen: Option<Handle>,
    next: Handle,
    log: seq<UrlEvent>)

  /** What a handler tells the parent: nothing, `onImageSelect(file)` or `onClear()`. */
  datatype Notice = Silent | Selected(file: File) | Cleared

  /** The state after a handler, and its call to the parent. */
  datatype Reaction = Reaction(state: Uploader, notice: Notice)

  /** The component as first rendered. */
  function Mount(disabled: bool): (u: Uploader)
    ensures u.preview.None? && !u.isVideo && !u.isDragging && u.log == []
  {
    Uploader(false, None, false, disabled, None, 0, [])
  }

  /** The drop filter: an image or a video. */
  predicate AcceptsType(mimeType: string)
  {
    Text.StartsWith(mimeType, "image/") || Text.StartsWith(mimeType, "video/")
  }

  predicate IsVideoType(mimeType: string)
  {
    Text.StartsWith(mimeType, "video/")
  }

  /** `handleDragOver`: highlight the drop zone unless disabled. */
  function HandleDragOver(u: Uploader): (v: Uploader)
    ensures u.memoDisabled ==> v == u
    ensures !u.memoDisabled ==> v == u.(isDragging := true)
  {
    if u.memoDisabled then u else u.(isDragging := true)
  }

  /** `handleDragLeave`: drop the highlight unless disabled. */
  function HandleDragLeave(u: Uploader): (v: Uploader)
    ensures u.memoDisabled ==> v == u
    ensures !u.memoDisabled ==> v == u.(isDragging := false)
  {
    if u.memoDisabled then u else u.(isDragging := false)
  }

  /** `processFile`, run with `seen` as the `previewUrl` its closure reads:
      revoke `seen` if any, create a handle for `f`, make it the preview,
      set `isVideo` from the type, and tell the parent. */
  function ProcessFile(u: Uploader, seen: Option<Handle>, f: File): (r: Reaction)
    ensures r.notice == Selected(f)
    ensures r.state.preview == Some(u.next) && r.state.next == u.next + 1
    ensures r.state.isVideo <==> IsVideoType(f.mimeType)
    ensures r.state.log == u.log + (if seen.Some? then [Revoked(seen.value)] else []) + [Created(u.next, f)]
    ensures r.state.isDragging == u.isDragging && r.state.memoDisabled == u.memoDisabled
    ensures r.state.dropSeen == u.dropSeen
  {
    var afterRevoke := if seen.Some? then u.log + [Revoked(seen.value)] else u.log;
    Reaction(
      u.(preview := Some(u.next), isVideo := IsVideoType(f.mimeType), next := u.next + 1,
         log := afterRevoke + [Created(u.next, f)]),
      Selected(f))
  }

  /** `handleDrop`: unless disabled, end the highlight and process the first
      dropped file if it is an image or a video; anything else is ignored.
      The memoised handler's `processFile` reads `dropSeen`. */
  function HandleDrop(u: Uploader, files: seq<File>): (r: Reaction)
    ensures u.memoDisabled ==> r == Reaction(u, Silent)
    ensures !u.memoDisabled && (|files| == 0 || !AcceptsType(files[0].mimeType)) ==>
              r == Reaction(u.(isDragging := false), Silent)
    ensures !u.memoDisabled && |files| > 0 && AcceptsType(files[0].mimeType) ==>
              r == ProcessFile(u.(isDragging := false), u.dropSeen, files[0])
  {
    if u.memoDisabled then Reaction(u, Silent)
    else
      var v := u.(isDragging := false);
      if |files| > 0 && AcceptsType(files[0].mimeType) then ProcessFile(v, v.dropSeen, files[0])
      else Reaction(v, Silent)
  }

  /** `handleFileInput`: process the first picked file, without the type
      filter; this handler is rebuilt on every render, so it reads the
      current preview. */
  function HandleFileInput(u: Uploader, files: seq<File>): (r: Reaction)
    ensures |files| == 0 ==> r == Reaction(u, Silent)
    ensures |files| > 0 ==> r == ProcessFile(u, u.preview, files[0])
  {
    if |files| > 0 then ProcessFile(u, u.preview, files[0]) else Reaction(u, Silent)
  }

  /** `handleClear`: revoke the current handle if any, forget it, reset
      `isVideo` and tell the parent. */
  function HandleClear(u: Uploader): (r: Reaction)
    ensures r.notice == Cleared
    ensures r.state.preview.None? && !r.state.isVideo
    ensures r.state.log == u.log + (if u.preview.Some? then [Revoked(u.preview.value)] else [])
    ensures r.state.next == u.next && r.state.dropSeen == u.dropSeen && r.state.memoDisabled == u.memoDisabled
  {
    var log := if u.preview.Some? then u.log + [Revoked(u.preview.value)] else u.log;
    Reaction(u.(preview := None, isVideo := false, log := log), Cleared)
  }

  /** What React does after a handler changed the state from `before` to
      `after` and the parent passed `disabled`: the effect cleanup revokes
      the superseded preview handle, and the memoised handlers are rebuilt,
      capturing the current preview, when `disabled` changed. */
  function Rerender(before: Uploader, after: Uploader, disabled: bool): (v: Uploader)
    ensures v.preview == after.preview && v.isVideo == after.isVideo && v.next == after.next
    ensures v.isDragging == after.isDragging && v.memoDisabled == disabled
    ensures v.log == after.log +
              (if before.preview.Some? && before.preview != after.preview then [Revoked(before.preview.value)] else [])
    ensures v.dropSeen == (if disabled != after.memoDisabled then after.preview else after.dropSeen)
  {
    var cleaned :=
      if before.preview.Some? && before.preview != after.preview
      then after.(log := after.log + [Revoked(before.preview.value)])
      else after;
    if disabled != cleaned.memoDisabled then cleaned.(memoDisabled := disabled, dropSeen := cleaned.preview)
    else cleaned
  }

  /** Unmounting runs the last effect cleanup: the current handle is revoked. */
  function Unmount(u: Uploader): (v: Uploader)
    ensures v.log == u.log + (if u.preview.Some? then [Revoked(u.preview.value)] else [])
  {
    if u.preview.Some? then u.(log := u.log + [Revoked(u.preview.value)]) else u
  }

  /** The preview is rendered only when the parent has a file and a preview
      handle exists; otherwise the upload zone is. */
  predicate PreviewShown(u: Uploader, selected: Option<File>)
  {
    selected.Some? && u.preview.Some?
  }

  /** The remove button is part of the preview and is hidden while disabled. */
  predicate RemoveButtonShown(u: Uploader, selected: Option<File>, disabled: bool)
  {
    PreviewShown(u, selected) && !disabled
  }

  // ----- The handle log -----

  /** The handles created in `log`. */
  function CreatedIn(log: seq<UrlEvent>): set<Handle>
  {
    if log == [] then {}
    else CreatedIn(log[..|log| - 1]) + (if log[|log| - 1].Created? then {log[|log| - 1].handle} else {})
  }

  /** The handles revoked at least once in `log`. */
  function RevokedIn(log: seq<UrlEvent>): set<Handle>
  {
    if log == [] then {}
    else RevokedIn(log[..|log| - 1]) + (if log[|log| - 1].Revoked? then {log[|log| - 1].handle} else {})
  }

  /** How many times `h` was revoked in `log`. */
  function RevokeCount(log: seq<UrlEvent>, h: Handle): nat
  {
    if log == [] then 0
    else RevokeCount(log[..|log| - 1], h) + (if log[|log| - 1] == Revoked(h) then 1 else 0)
  }

  /** The file the most recent creation of `h` was for. */
  function FileOf(log: seq<UrlEvent>, h: Handle): Option<File>
  {
    if log == [] then None
    else if log[|log| - 1].Created? && log[|log| - 1].handle == h then Some(log[|log| - 1].file)
    else FileOf(log[..|log| - 1], h)
  }

  /** Appending events adds exactly the handles they create and revoke. */
  lemma {:induction false} CreatedRevokedAppend(log: seq<UrlEvent>, more: seq<UrlEvent>)
    ensures CreatedIn(log + more) == CreatedIn(log) + CreatedIn(more)
    ensures RevokedIn(log + more) == RevokedIn(log) + RevokedIn(more)
    decreases |more|
  {
    if more != [] {
      assert (log + more)[..|log + more| - 1] == log + more[..|more| - 1];
      CreatedRevokedAppend(log, more[..|more| - 1]);
    } else {
      assert log + more == log;
    }
  }

  /** The settled states of the component: handles are fresh, every revoke
      is of a handle it created, the current preview is live, and no handle
      other than the current preview is left unrevoked. */
  ghost predicate HandlesOk(u: Uploader)
  {
    && (forall h :: h in CreatedIn(u.log) ==> h < u.next)
    && RevokedIn(u.log) <= CreatedIn(u.log)
    && (u.preview.Some? ==> u.preview.value in CreatedIn(u.log) && u.preview.value !in RevokedIn(u.log))
    && (u.dropSeen.Some? ==> u.dropSeen.value in CreatedIn(u.log))
    && CreatedIn(u.log) - RevokedIn(u.log) <= Elements(u.preview)
  }

  lemma MountHandlesOk(disabled: bool)
    ensures HandlesOk(Mount(disabled))
  {
  }

  /** Appending one event adds the handle it creates or revokes. */
  lemma AppendOne(log: seq<UrlEvent>, e: UrlEvent)
    ensures CreatedIn(log + [e]) == CreatedIn(log) + (if e.Created? then {e.handle} else {})
    ensures RevokedIn(log + [e]) == RevokedIn(log) + (if e.Revoked? then {e.handle} else {})
  {
    assert (log + [e])[..|log|] == log;
  }

  /** Processing a file and letting React settle keeps the handle
      discipline, whichever earlier handle the handler's closure revokes,
      because the effect cleanup revokes the superseded preview. */
  lemma ProcessFileKeepsHandlesOk(u: Uploader, seen: Option<Handle>, f: File, disabled: bool)
    requires HandlesOk(u)
    requires seen.Some? ==> seen.value in CreatedIn(u.log)
    ensures HandlesOk(Rerender(u, ProcessFile(u, seen, f).state, disabled))
  {
    var after := ProcessFile(u, seen, f).state;
    var v := Rerender(u, after, disabled);
    var log1 := if seen.Some? then u.log + [Revoked(seen.value)] else u.log;
    if seen.Some? {
      AppendOne(u.log, Revoked(seen.value));
    }
    assert CreatedIn(log1) == CreatedIn(u.log);
    assert RevokedIn(log1) == RevokedIn(u.log) + Elements(seen);
    var log2 := log1 + [Created(u.next, f)];
    AppendOne(log1, Created(u.next, f));
    assert after.log == log2;
    if u.preview.Some? {
      assert u.preview.value < u.next;
      assert v.log == log2 + [Revoked(u.preview.value)];
      AppendOne(log2, Revoked(u.preview.value));
    } else {
      assert v.log == log2;
    }
    assert CreatedIn(v.log) == CreatedIn(u.log) + {u.next};
    assert RevokedIn(v.log) == RevokedIn(u.log) + Elements(seen) + Elements(u.preview);
  }

  /** Removing the media and letting React settle keeps the handle
      discipline. */
  lemma ClearKeepsHandlesOk(u: Uploader, disabled: bool)
    requires HandlesOk(u)
    ensures HandlesOk(Rerender(u, HandleClear(u).state, disabled))
  {
    var v := Rerender(u, HandleClear(u).state, disabled);
    var revokes: seq<UrlEvent> := if u.preview.Some? then [Revoked(u.preview.value), Revoked(u.preview.value)] else [];
    assert v.log == u.log + revokes;
    CreatedRevokedAppend(u.log, revokes);
    CreatedRevokedAppend(revokes[..|revokes| / 2], revokes[|revokes| / 2..]);
    assert revokes == revokes[..|revokes| / 2] + revokes[|revokes| / 2..];
    assert RevokedIn(v.log) == RevokedIn(u.log) + Elements(u.preview);
  }

  /** A render that changes neither the preview nor the log keeps the
      handle discipline. */
  lemma QuietRenderKeepsHandlesOk(u: Uploader, after: Uploader, disabled: bool)
    requires HandlesOk(u)
    requires after.preview == u.preview && after.next == u.next && after.log == u.log && after.dropSeen == u.dropSeen
    ensures HandlesOk(Rerender(u, after, disabled))
  {
  }

  /** Every handler of the component, settled, keeps the handle discipline. */
  lemma HandlersKeepHandlesOk(u: Uploader, files: seq<File>, disabled: bool)
    requires HandlesOk(u)
    ensures HandlesOk(Rerender(u, HandleDragOver(u), disabled))
    ensures HandlesOk(Rerender(u, HandleDragLeave(u), disabled))
    ensures HandlesOk(Rerender(u, HandleDrop(u, files).state, disabled))
    ensures HandlesOk(Rerender(u, HandleFileInput(u, files).state, disabled))
    ensures HandlesOk(Rerender(u, HandleClear(u).state, disabled))
  {
    QuietRenderKeepsHandlesOk(u, HandleDragOver(u), disabled);
    QuietRenderKeepsHandlesOk(u, HandleDragLeave(u), disabled);
    if !u.memoDisabled && |files| > 0 && AcceptsType(files[0].mimeType) {
      var v := u.(isDragging := false);
      ProcessFileKeepsHandlesOk(v, v.dropSeen, files[0], disabled);
      assert Rerender(v, ProcessFile(v, v.dropSeen, files[0]).state, disabled)
          == Rerender(u, HandleDrop(u, files).state, disabled);
    } else {
      QuietRenderKeepsHandlesOk(u, HandleDrop(u, files).state, disabled);
    }
    if |files| > 0 {
      ProcessFileKeepsHandlesOk(u, u.preview, files[0], disabled);
    } else {
      QuietRenderKeepsHandlesOk(u, HandleFileInput(u, files).state, disabled);
    }
    ClearKeepsHandlesOk(u, disabled);
  }

  /** On unmount every handle the component ever created has been revoked. */
  lemma UnmountReleasesEverything(u: Uploader)
    requires HandlesOk(u)
    ensures CreatedIn(Unmount(u).log) <= RevokedIn(Unmount(u).log)
  {
    CreatedRevokedAppend(u.log, if u.preview.Some? then [Revoked(u.preview.value)] else []);
  }

  /** Release is not exactly-once: removing the media revokes its handle
      in the handler and again in the effect cleanup. */
  lemma ClearRevokesTwice(u: Uploader, h: Handle, disabled: bool)
    requires u.preview == Some(h)
    ensures RevokeCount(Rerender(u, HandleClear(u).state, disabled).log, h) == RevokeCount(u.log, h) + 2
  {
    var log := Rerender(u, HandleClear(u).state, disabled).log;
    assert log == u.log + [Revoked(h)] + [Revoked(h)];
    assert log[..|log| - 1] == u.log + [Revoked(h)];
    assert (u.log + [Revoked(h)])[..|u.log|] == u.log;
  }

  /** Picking a new file while a preview exists revokes the old handle
      before creating the new one, and the effect cleanup revokes it once
      more after the render. */
  lemma PickRevokesBeforeCreating(u: Uploader, h: Handle, f: File, disabled: bool)
    requires u.preview == Some(h) && h < u.next
    ensures HandleFileInput(u, [f]).state.log == u.log + [Revoked(h), Created(u.next, f)]
    ensures Rerender(u, HandleFileInput(u, [f]).state, disabled).log
         == u.log + [Revoked(h), Created(u.next, f), Revoked(h)]
  {
  }
}
