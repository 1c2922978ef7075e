/**
 * The autosave controller (src/hooks/useAutoSave.ts) as a state machine. Its events are a render
 * with new hook arguments, the 2000 ms timer firing, a manual save, and the answer of a pending
 * store write. The document store is a map from document id to the saved text.
 */
module AutoSave {
  import opened Wrappers

  const DebounceMs := 2000

  datatype SaveStatus = Saved | Saving | SaveError

  /** A store write that has been sent and not yet answered. */
  datatype PendingSave = PendingSave(documentId: string, content: string, fromSaveNow: bool)

  /**
   * The hook arguments (`documentId`, `content`, `isOwner`), the status, `savedContentRef`, the
   * pending timer with the text its closure will save, the unanswered writes and the store.
   */
  datatype AutoSaveState = AutoSaveState(
    documentId: Option<string>, content: string, isOwner: bool,
    status: SaveStatus, savedContent: string, timer: Option<string>,
    inFlight: seq<PendingSave>, store: map<string, string>)

  /** Both guards of `performSave` and of the effect: a document id and ownership. */
  predicate Enabled(s: AutoSaveState) {
    Truthy(s.documentId) && s.isOwner
  }

  /** The mount: status 'saved' and the ref holding the first content; the effect returns early. */
  function Mount(documentId: Option<string>, content: string, isOwner: bool, store: map<string, string>): AutoSaveState {
    AutoSaveState(documentId, content, isOwner, Saved, content, None, [], store)
  }

  /** `performSave(contentToSave)` up to the await: set 'saving' and send the write. */
  function PerformSaveStep(s: AutoSaveState, contentToSave: string, fromSaveNow: bool): AutoSaveState {
    if !Enabled(s) then s
    else s.(status := Saving, inFlight := s.inFlight + [PendingSave(s.documentId.value, contentToSave, fromSaveNow)])
  }

  /** The effect body, after its cleanup has already cancelled the previous timer. */
  function Effect(s: AutoSaveState): AutoSaveState {
    if !Enabled(s) then s
    else if s.content == s.savedContent then s
    else if s.content == "" && s.savedContent != "" then s
    else s.(savedContent := s.content, status := Saving, timer := Some(s.content))
  }

  /** A render whose arguments differ runs the cleanup (cancel the timer) and then the effect. */
  function RenderStep(s: AutoSaveState, documentId: Option<string>, content: string, isOwner: bool): AutoSaveState {
    if documentId == s.documentId && content == s.content && isOwner == s.isOwner then s
    else Effect(s.(documentId := documentId, content := content, isOwner := isOwner, timer := None))
  }

  function TimerFiresStep(s: AutoSaveState): AutoSaveState {
    if s.timer.None? then s else PerformSaveStep(s.(timer := None), s.timer.value, false)
  }

  /** `saveNow`: cancel the timer and save what the ref holds. */
  function SaveNowStep(s: AutoSaveState): AutoSaveState {
    PerformSaveStep(s.(timer := None), s.savedContent, true)
  }

  function Without<T>(xs: seq<T>, i: nat): (r: seq<T>)
    requires i < |xs|
    ensures |r| == |xs| - 1
    ensures forall k :: 0 <= k < |r| ==> r[k] == if k < i then xs[k] else xs[k + 1]
  {
    xs[..i] + xs[i + 1..]
  }

  /**
   * The answer to write `i`: success records the text and sets 'saved'; failure sets 'error'.
   * The write is an update filtered on the id, so a document id with no row changes no row and
   * still answers without an error.
   */
  function SaveResultStep(s: AutoSaveState, i: nat, ok: bool): AutoSaveState
    requires i < |s.inFlight|
  {
    var p := s.inFlight[i];
    if ok then
      s.(inFlight := Without(s.inFlight, i), savedContent := p.content, status := Saved,
         store := if p.documentId in s.store then s.store[p.documentId := p.content] else s.store)
    else s.(inFlight := Without(s.inFlight, i), status := SaveError)
  }

  /** Whether the failure reaches a caller: only `saveNow` rethrows; the timer swallows it. */
  predicate Rethrows(s: AutoSaveState, i: nat, ok: bool)
    requires i < |s.inFlight|
  {
    !ok && s.inFlight[i].fromSaveNow
  }

  /** A pending timer belongs to the current arguments, and every write names a document. */
  predicate Inv(s: AutoSaveState) {
    && (s.timer.Some? ==> Enabled(s) && s.timer.value == s.content)
    && (forall k :: 0 <= k < |s.inFlight| ==> s.inFlight[k].documentId != "")
  }

  class Controller {
    var documentId: Option<string>
    var content: string
    var isOwner: bool
    var status: SaveStatus
    var savedContent: string
    var timer: Option<string>
    var inFlight: seq<PendingSave>
    var store: map<string, string>

    function State(): AutoSaveState
      reads this
    {
      AutoSaveState(documentId, content, isOwner, status, savedContent, timer, inFlight, store)
    }

    constructor (documentId0: Option<string>, content0: string, isOwner0: bool, store0: map<string, string>)
      ensures State() == Mount(documentId0, content0, isOwner0, store0) && Inv(State())
    {
      documentId, content, isOwner := documentId0, content0, isOwner0;
      status := Saved;
      savedContent := content0;
      timer := None;
      inFlight := [];
      store := store0;
    }

    method PerformSave(contentToSave: string, fromSaveNow: bool)
      modifies this
      ensures State() == PerformSaveStep(old(State()), contentToSave, fromSaveNow)
    {
      if documentId.None? || documentId.value == "" {
        return;
      }
      if !isOwner {
        return;
      }
      status := Saving;
      inFlight := inFlight + [PendingSave(documentId.value, contentToSave, fromSaveNow)];
    }

    method Render(documentId1: Option<string>, content1: string, isOwner1: bool)
      requires Inv(State())
      modifies this
      ensures State() == RenderStep(old(State()), documentId1, content1, isOwner1)
      ensures Inv(State())
    {
      if documentId1 == documentId && content1 == content && isOwner1 == isOwner {
        return;
      }
      timer := None;
      documentId, content, isOwner := documentId1, content1, isOwner1;
      if documentId.None? || documentId.value == "" || !isOwner {
        return;
      }
      if content == savedContent {
        return;
      }
      if content == "" && savedContent != "" {
        return;
      }
      savedContent := content;
      status := Saving;
      timer := Some(content);
    }

    method TimerFires()
      requires Inv(State())
      modifies this
      ensures State() == TimerFiresStep(old(State()))
      ensures Inv(State())
    {
      if timer.Some? {
        var pending := timer.value;
        timer := None;
        PerformSave(pending, false);
      }
    }

    method SaveNow()
      requires Inv(State())
      modifies this
      ensures State() == SaveNowStep(old(State()))
      ensures Inv(State())
    {
      timer := None;
      PerformSave(savedContent, true);
    }

    /** Feed the answer to write `i`; `thrown` says whether the failure reaches the caller. */
    method SaveResult(i: nat, ok: bool) returns (thrown: bool)
      requires i < |inFlight| && Inv(State())
      modifies this
      ensures State() == SaveResultStep(old(State()), i, ok)
      ensures thrown == Rethrows(old(State()), i, ok)
      ensures Inv(State())
    {
      var p := inFlight[i];
      inFlight := inFlight[..i] + inFlight[i + 1..];
      if ok {
        savedContent := p.content;
        status := Saved;
        if p.documentId in store {
          store := store[p.documentId := p.content];
        }
        thrown := false;
      } else {
        status := SaveError;
        thrown := p.fromSaveNow;
      }
    }
  }

  // ---------------------------------------------------------------------------
  // Properties
  // ---------------------------------------------------------------------------

  /** Every event keeps the invariant. */
  lemma EventsKeepInv(s: AutoSaveState, documentId: Option<string>, content: string, isOwner: bool)
    requires Inv(s)
    ensures Inv(RenderStep(s, documentId, content, isOwner))
    ensures Inv(TimerFiresStep(s))
    ensures Inv(SaveNowStep(s))
    ensures forall i: nat, ok: bool :: i < |s.inFlight| ==> Inv(SaveResultStep(s, i, ok))
  {
  }

  /**
   * Without an id, or without ownership, neither the timer nor `saveNow` writes anything or
   * changes the status.
   */
  lemma DisabledNeverWrites(s: AutoSaveState)
    requires !Enabled(s)
    ensures TimerFiresStep(s).status == s.status && TimerFiresStep(s).inFlight == s.inFlight
    ensures SaveNowStep(s).status == s.status && SaveNowStep(s).inFlight == s.inFlight
    ensures TimerFiresStep(s).store == s.store && SaveNowStep(s).store == s.store
  {
  }

  /** Rendering with disabled arguments cancels the timer but records nothing and keeps the status. */
  lemma DisabledRenderRecordsNothing(s: AutoSaveState, documentId: Option<string>, content: string, isOwner: bool)
    requires !Truthy(documentId) || !isOwner
    ensures var r := RenderStep(s, documentId, content, isOwner);
            r.savedContent == s.savedContent && r.status == s.status && r.inFlight == s.inFlight
            && (r.timer.Some? ==> r == s)
  {
  }

  /**
   * A new content equal to the recorded one, or empty over a non-empty recorded one, is ignored:
   * nothing is recorded and the status stays; the cleanup still cancels the pending timer.
   */
  lemma IgnoredContent(s: AutoSaveState, content: string)
    requires Enabled(s) && content != s.content
    requires content == s.savedContent || (content == "" && s.savedContent != "")
    ensures var r := RenderStep(s, s.documentId, content, s.isOwner);
            r.savedContent == s.savedContent && r.status == s.status && r.timer == None && r.inFlight == s.inFlight
  {
  }

  /** An accepted change records the text, shows 'saving' and arms exactly one timer for it. */
  lemma AcceptedContent(s: AutoSaveState, content: string)
    requires Enabled(s) && content != s.content
    requires content != s.savedContent && !(content == "" && s.savedContent != "")
    ensures var r := RenderStep(s, s.documentId, content, s.isOwner);
            r.savedContent == content && r.status == Saving && r.timer == Some(content) && r.inFlight == s.inFlight
  {
  }

  /** `saveNow` writes what the ref holds, which need not be the latest content. */
  lemma SaveNowWritesRecorded(s: AutoSaveState)
    requires Enabled(s)
    ensures var r := SaveNowStep(s);
            && r.timer == None && r.status == Saving
            && r.inFlight == s.inFlight + [PendingSave(s.documentId.value, s.savedContent, true)]
  {
  }

  /**
   * A successful answer stores the text under its document when that document exists and shows
   * 'saved'; an update of an absent id changes no row; a failure shows 'error'.
   */
  lemma SaveResultSpec(s: AutoSaveState, i: nat, ok: bool)
    requires i < |s.inFlight|
    ensures ok ==> SaveResultStep(s, i, ok).status == Saved
                   && SaveResultStep(s, i, ok).savedContent == s.inFlight[i].content
    ensures ok && s.inFlight[i].documentId in s.store ==>
              SaveResultStep(s, i, ok).store == s.store[s.inFlight[i].documentId := s.inFlight[i].content]
    ensures ok && s.inFlight[i].documentId !in s.store ==> SaveResultStep(s, i, ok).store == s.store
    ensures !ok ==> SaveResultStep(s, i, ok).status == SaveError && SaveResultStep(s, i, ok).store == s.store
    ensures Rethrows(s, i, ok) <==> !ok && s.inFlight[i].fromSaveNow
    ensures |SaveResultStep(s, i, ok).inFlight| == |s.inFlight| - 1
  {
  }

  /**
   * An accepted text whose timed save fails is not tried again: the status is 'error', no timer
   * is pending, and rendering the same text again changes nothing.
   */
  lemma FailedSaveIsNotRetried(s: AutoSaveState, content: string)
    requires Inv(s) && Enabled(s) && s.timer.None? && content != s.content
    requires content != s.savedContent && !(content == "" && s.savedContent != "")
    ensures var armed := RenderStep(s, s.documentId, content, s.isOwner);
            var fired := TimerFiresStep(armed);
            var failed := SaveResultStep(fired, |fired.inFlight| - 1, false);
            && |fired.inFlight| == |s.inFlight| + 1
            && fired.inFlight[|fired.inFlight| - 1] == PendingSave(s.documentId.value, content, false)
            && failed.status == SaveError && failed.timer == None && failed.savedContent == content
            && !Rethrows(fired, |fired.inFlight| - 1, false)
            && RenderStep(failed, s.documentId, content, s.isOwner) == failed
  {
    var armed := RenderStep(s, s.documentId, content, s.isOwner);
    AcceptedContent(s, content);
    assert armed.timer == Some(content);
    var fired := TimerFiresStep(armed);
    assert fired.inFlight == s.inFlight + [PendingSave(s.documentId.value, content, false)];
  }

  /** The hook starts out showing 'saved' with nothing pending. */
  lemma MountSpec(documentId: Option<string>, content: string, isOwner: bool, store: map<string, string>)
    ensures Mount(documentId, content, isOwner, store).status == Saved
    ensures Inv(Mount(documentId, content, isOwner, store))
    ensures TimerFiresStep(Mount(documentId, content, isOwner, store)) == Mount(documentId, content, isOwner, store)
  {
  }
}
