/** The floating quick-capture button (components/FloatingCaptureButton.tsx): what a
    click does for zero, one or several notebooks, which notebook the capture
    form writes to, when the notebook selector shows, and the reset after a
    successful capture. */
module FloatingCapture {
  import opened Types
  import opened Data
  import opened Clipboard

  const NeedNotebookMessage := "Create a notebook first"
  const EmptyClipboardMessage := "No content found in clipboard"

  /** The component's own state: whether the dialog is open, the chosen notebook
      id ('' for none), and the last notification. */
  datatype QuickState = QuickState(isDialogOpen: bool, selectedNotebookId: string, toast: Toast)

  /** `handleQuickCapture()`, given the notebooks and what a clipboard read would
      return. With no notebook it refuses; with one it selects it and opens the
      dialog whatever the clipboard holds; with several it keeps the selection and
      opens the dialog only when the read returned something. */
  function QuickCaptureStep(notebooks: seq<Notebook>, s: QuickState, read: Option<ClipboardData>): (r: QuickState)
    ensures |notebooks| == 0 ==> r == s.(toast := ErrorToast(NeedNotebookMessage))
    ensures |notebooks| == 1 ==> r == s.(isDialogOpen := true, selectedNotebookId := notebooks[0].id)
    ensures |notebooks| > 1 ==> r.selectedNotebookId == s.selectedNotebookId
    ensures |notebooks| > 1 && read.Some? ==> r == s.(isDialogOpen := true)
    ensures |notebooks| > 1 && read.None? ==> r == s.(toast := ErrorToast(EmptyClipboardMessage))
  {
    if |notebooks| == 0 then s.(toast := ErrorToast(NeedNotebookMessage))
    else if |notebooks| == 1 then s.(selectedNotebookId := notebooks[0].id, isDialogOpen := true)
    else if read.Some? then s.(isDialogOpen := true)
    else s.(toast := ErrorToast(EmptyClipboardMessage))
  }

  /** With one notebook the clipboard does not matter. */
  lemma SingleNotebookIgnoresClipboard(notebooks: seq<Notebook>, s: QuickState, a: Option<ClipboardData>, b: Option<ClipboardData>)
    requires |notebooks| == 1
    ensures QuickCaptureStep(notebooks, s, a) == QuickCaptureStep(notebooks, s, b)
  {
  }

  /** The notebook the capture form is shown for: the chosen one, or the only one;
      none (no form) while several notebooks exist and none is chosen. */
  function CaptureTarget(notebooks: seq<Notebook>, selectedNotebookId: string): (r: Option<string>)
    ensures r.Some? <==> selectedNotebookId != "" || |notebooks| == 1
    ensures selectedNotebookId != "" ==> r == Some(selectedNotebookId)
    ensures selectedNotebookId == "" && |notebooks| == 1 ==> r == Some(notebooks[0].id)
  {
    if selectedNotebookId != "" then Some(selectedNotebookId)
    else if |notebooks| == 1 then Some(notebooks[0].id)
    else None
  }

  /** The notebook selector shows while several notebooks exist and none is chosen. */
  predicate ShowSelector(notebooks: seq<Notebook>, selectedNotebookId: string) {
    |notebooks| > 1 && selectedNotebookId == ""
  }

  /** Whenever a notebook exists, the open dialog shows exactly one of the selector
      and the capture form. */
  lemma SelectorOrForm(notebooks: seq<Notebook>, selectedNotebookId: string)
    requires |notebooks| >= 1
    ensures ShowSelector(notebooks, selectedNotebookId) <==> CaptureTarget(notebooks, selectedNotebookId).None?
  {
  }

  /** A quick capture that opens the dialog with a single notebook shows the
      capture form for that notebook. */
  lemma SingleNotebookCapturesThere(notebooks: seq<Notebook>, s: QuickState, read: Option<ClipboardData>)
    requires |notebooks| == 1
    ensures var r := QuickCaptureStep(notebooks, s, read);
      r.isDialogOpen && CaptureTarget(notebooks, r.selectedNotebookId) == Some(notebooks[0].id)
  {
  }

  /** What the component renders: nothing without notebooks, otherwise the button,
      drawn with the clipboard icon when the hook holds clipboard data. */
  datatype ButtonView = NothingShown | FloatingButton(clipboardIcon: bool)

  function View(notebooks: seq<Notebook>, clipboardData: Option<ClipboardData>): (r: ButtonView)
    ensures r.NothingShown? <==> notebooks == []
    ensures r.FloatingButton? ==> (r.clipboardIcon <==> clipboardData.Some?)
  {
    if |notebooks| == 0 then NothingShown else FloatingButton(clipboardData.Some?)
  }

  /** The state of one mounted FloatingCaptureButton. */
  class QuickCapture {
    const notebooks: NotebookStore
    const clipboard: ClipboardHook
    var isDialogOpen: bool
    var selectedNotebookId: string
    var toast: Toast

    constructor (notebooks: NotebookStore, clipboard: ClipboardHook)
      ensures this.notebooks == notebooks && this.clipboard == clipboard
      ensures !isDialogOpen && selectedNotebookId == "" && toast == NoToast
    {
      this.notebooks := notebooks;
      this.clipboard := clipboard;
      isDialogOpen := false;
      selectedNotebookId := "";
      toast := NoToast;
    }

    function State(): QuickState
      reads this
    {
      QuickState(isDialogOpen, selectedNotebookId, toast)
    }

    /** `handleQuickCapture()`: the clipboard is read only when several notebooks exist. */
    method HandleQuickCapture(cb: SystemClipboard)
      modifies this`isDialogOpen, this`selectedNotebookId, this`toast
      ensures State() == QuickCaptureStep(notebooks.notebooks, old(State()), ClipboardRead(cb))
    {
      var ns := notebooks.notebooks;
      if |ns| == 0 {
        toast := ErrorToast(NeedNotebookMessage);
        return;
      }
      if |ns| == 1 {
        selectedNotebookId := ns[0].id;
        isDialogOpen := true;
        return;
      }
      var data := clipboard.ReadClipboard(cb);
      if data.Some? {
        isDialogOpen := true;
      } else {
        toast := ErrorToast(EmptyClipboardMessage);
      }
    }

    /** The selector's `onValueChange`. */
    method SelectNotebook(id: string)
      modifies this`selectedNotebookId
      ensures selectedNotebookId == id
    {
      selectedNotebookId := id;
    }

    /** The capture form's `onSuccess`: close the dialog and forget the choice. */
    method OnSuccess()
      modifies this`isDialogOpen, this`selectedNotebookId
      ensures !isDialogOpen && selectedNotebookId == ""
    {
      isDialogOpen := false;
      selectedNotebookId := "";
    }
  }

  /** After a successful capture with several notebooks, the next opening asks for
      a notebook again. */
  lemma ResetAsksAgain(notebooks: seq<Notebook>)
    requires |notebooks| > 1
    ensures ShowSelector(notebooks, "") && CaptureTarget(notebooks, "").None?
  {
  }
}
