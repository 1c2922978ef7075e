/**
 * The editor page's own state changes (src/app/ai-editor/page.tsx): opening and deleting a
 * document reset the undo history, every edit goes through `push`, and two key chords drive
 * undo and redo. Fetching a document is an outcome passed in.
 */
module EditorPage {
  import opened Wrappers
  import opened UndoRedo

  /** What the document fetch answers. */
  datatype FullDocument = FullDocument(id: string, title: string, content: string)

  datatype Action = UndoAction | RedoAction

  /**
   * The keydown handler's two independent tests: Ctrl+z without Shift undoes; Ctrl+y, or
   * Ctrl+Shift+z, redoes.
   */
  function Shortcut(ctrlKey: bool, shiftKey: bool, key: string): (actions: seq<Action>)
    ensures |actions| <= 1
  {
    (if ctrlKey && key == "z" && !shiftKey then [UndoAction] else [])
      + (if (ctrlKey && key == "y") || (ctrlKey && shiftKey && key == "z") then [RedoAction] else [])
  }

  /** The mapping chord by chord; without Ctrl no key does anything. */
  lemma ShortcutSpec(shiftKey: bool, key: string)
    ensures Shortcut(true, false, "z") == [UndoAction]
    ensures Shortcut(true, true, "z") == [RedoAction]
    ensures Shortcut(true, shiftKey, "y") == [RedoAction]
    ensures Shortcut(false, shiftKey, key) == []
    ensures key != "z" && key != "y" ==> Shortcut(true, shiftKey, key) == []
  {
  }

  class Page {
    var activeDocId: Option<string>
    var activeDocTitle: string
    var history: History

    ghost predicate Valid()
      reads this, history
    {
      history.Valid()
    }

    constructor ()
      ensures Valid() && fresh(history)
      ensures activeDocId == None && activeDocTitle == "" && history.State() == Initial("")
    {
      activeDocId := None;
      activeDocTitle := "";
      history := new History("");
    }

    /** The text the editor shows, `history[index]`. */
    function DocumentContent(): Option<string>
      reads this, history
    {
      history.CurrentValue()
    }

    /**
     * `handleDocumentSelect`: selecting the open document does nothing; otherwise a fetched
     * document becomes the open one with a fresh history, and a failed fetch changes nothing.
     */
    method HandleDocumentSelect(docId: string, fetched: Result<FullDocument>)
      requires Valid()
      modifies this, history
      ensures Valid() && history == old(history)
      ensures old(activeDocId) == Some(docId) || fetched.Err? ==>
                activeDocId == old(activeDocId) && activeDocTitle == old(activeDocTitle)
                && history.State() == old(history.State())
      ensures old(activeDocId) != Some(docId) && fetched.Ok? ==>
                && activeDocId == Some(fetched.value.id) && activeDocTitle == fetched.value.title
                && history.State() == ResetStep(old(history.State()), fetched.value.content)
    {
      if activeDocId == Some(docId) {
        return;
      }
      if fetched.Ok? {
        activeDocId := Some(fetched.value.id);
        activeDocTitle := fetched.value.title;
        history.Reset(fetched.value.content);
      }
    }

    /** `handleDocumentDelete`: deleting the open document closes it; any other id changes nothing. */
    method HandleDocumentDelete(deletedId: string)
      requires Valid()
      modifies this, history
      ensures Valid() && history == old(history)
      ensures old(activeDocId) == Some(deletedId) ==>
                activeDocId == None && activeDocTitle == "" && history.State() == ResetStep(old(history.State()), "")
      ensures old(activeDocId) != Some(deletedId) ==>
                activeDocId == old(activeDocId) && activeDocTitle == old(activeDocTitle)
                && history.State() == old(history.State())
    {
      if activeDocId == Some(deletedId) {
        activeDocId := None;
        activeDocTitle := "";
        history.Reset("");
      }
    }

    /** Typing, an AI edit and a realtime update all record the new text the same way. */
    method HandleContentChange(newContent: string)
      requires Valid()
      modifies history
      ensures Valid()
      ensures history.State() == PushStep(old(history.State()), newContent)
    {
      history.Push(newContent);
    }

    /** After a restore the page reloads the document and starts a new history from it. */
    method HandleContentRestore(fetched: Result<string>)
      requires Valid()
      modifies history
      ensures Valid()
      ensures fetched.Ok? ==> history.State() == ResetStep(old(history.State()), fetched.value)
      ensures fetched.Err? ==> history.State() == old(history.State())
    {
      if fetched.Ok? {
        history.Reset(fetched.value);
      }
    }

    /** The keydown listener. */
    method HandleKeyDown(ctrlKey: bool, shiftKey: bool, key: string)
      requires Valid()
      modifies history
      ensures Valid()
      ensures Shortcut(ctrlKey, shiftKey, key) == [UndoAction] ==> history.State() == UndoStep(old(history.State()))
      ensures Shortcut(ctrlKey, shiftKey, key) == [RedoAction] ==> history.State() == RedoStep(old(history.State()))
      ensures Shortcut(ctrlKey, shiftKey, key) == [] ==> history.State() == old(history.State())
    {
      var undoChord := ctrlKey && key == "z" && !shiftKey;
      var redoChord := (ctrlKey && key == "y") || (ctrlKey && shiftKey && key == "z");
      assert !(undoChord && redoChord) by { assert "z" != "y"; }
      assert Shortcut(ctrlKey, shiftKey, key) == (if undoChord then [UndoAction] else if redoChord then [RedoAction] else []);
      if ctrlKey && key == "z" && !shiftKey {
        history.Undo();
      }
      if (ctrlKey && key == "y") || (ctrlKey && shiftKey && key == "z") {
        history.Redo();
      }
    }
  }
}
