/** The top-level screen switch (App.tsx): which of the grid, one notebook or its
    chat is shown, the four handlers that move between them, and the handlers each
    screen hands to its component. */
module App {
  import opened Types

  datatype ViewMode = GridMode | NotebookMode | ChatMode

  /** The two state fields of App: `viewMode` and `selectedNotebook`. */
  datatype AppView = AppView(viewMode: ViewMode, selectedNotebook: Option<Notebook>)

  const Initial := AppView(GridMode, None)

  /** The four handlers. */
  datatype Handler = SelectNotebook(notebook: Notebook) | OpenChat(notebook: Notebook) | BackToGrid | BackToNotebook

  /** The state after a handler ran. */
  function Run(v: AppView, h: Handler): (r: AppView)
    ensures h.SelectNotebook? ==> r == AppView(NotebookMode, Some(h.notebook))
    ensures h.OpenChat? ==> r == AppView(ChatMode, Some(h.notebook))
    ensures h.BackToGrid? ==> r == AppView(GridMode, None)
    ensures h.BackToNotebook? ==> r == v.(viewMode := NotebookMode)
  {
    match h
    case SelectNotebook(nb) => AppView(NotebookMode, Some(nb))
    case OpenChat(nb) => AppView(ChatMode, Some(nb))
    case BackToGrid => AppView(GridMode, None)
    case BackToNotebook => v.(viewMode := NotebookMode)
  }

  /** What the container shows: each branch renders only with its mode, and the
      notebook and chat branches only with a selected notebook. */
  datatype Screen = GridScreen | NotebookScreen(notebook: Notebook) | ChatScreen(notebook: Notebook) | BlankScreen

  function ScreenOf(v: AppView): (r: Screen)
    ensures r.GridScreen? <==> v.viewMode == GridMode
    ensures r.NotebookScreen? <==> v.viewMode == NotebookMode && v.selectedNotebook.Some?
    ensures r.ChatScreen? <==> v.viewMode == ChatMode && v.selectedNotebook.Some?
    ensures r.NotebookScreen? || r.ChatScreen? ==> r.notebook == v.selectedNotebook.value
  {
    match v.viewMode
    case GridMode => GridScreen
    case NotebookMode => if v.selectedNotebook.Some? then NotebookScreen(v.selectedNotebook.value) else BlankScreen
    case ChatMode => if v.selectedNotebook.Some? then ChatScreen(v.selectedNotebook.value) else BlankScreen
  }

  /** The `onBack` given to ChatView: `viewMode === 'notebook' ? handleBackToNotebook : handleBackToGrid`. */
  function ChatBack(v: AppView): Handler {
    if v.viewMode == NotebookMode then BackToNotebook else BackToGrid
  }

  /** The handlers the shown screen offers: the grid offers opening any notebook
      or its chat; a notebook offers going back and its own chat; a chat offers
      its back action. */
  predicate Offers(v: AppView, h: Handler) {
    match ScreenOf(v)
    case GridScreen => h.SelectNotebook? || h.OpenChat?
    case NotebookScreen(nb) => h == BackToGrid || h == OpenChat(nb)
    case ChatScreen(_) => h == ChatBack(v)
    case BlankScreen => false
  }

  /** The grid shows exactly when no notebook is selected. */
  predicate Consistent(v: AppView) {
    v.viewMode == GridMode <==> v.selectedNotebook.None?
  }

  /** The app starts on the grid with nothing selected. */
  lemma InitialIsGrid()
    ensures ScreenOf(Initial) == GridScreen && Consistent(Initial)
  {
  }

  /** A consistent state always shows a screen. */
  lemma ConsistentIsNeverBlank(v: AppView)
    requires Consistent(v)
    ensures ScreenOf(v) != BlankScreen
  {
  }

  /** Inside the chat branch the mode is 'chat', so ChatView's back action is
      always back-to-grid, which clears the selection. */
  lemma ChatBackGoesToGrid(v: AppView)
    requires ScreenOf(v).ChatScreen?
    ensures ChatBack(v) == BackToGrid && Run(v, ChatBack(v)) == Initial
  {
  }

  /** No screen offers back-to-notebook. */
  lemma BackToNotebookIsNeverOffered(v: AppView)
    ensures !Offers(v, BackToNotebook)
  {
    if ScreenOf(v).ChatScreen? {
      ChatBackGoesToGrid(v);
    }
  }

  /** Every handler a screen offers leads to a consistent state, so the app never
      shows a blank container. */
  lemma OfferedHandlersKeepConsistent(v: AppView, h: Handler)
    requires Consistent(v) && Offers(v, h)
    ensures Consistent(Run(v, h)) && ScreenOf(Run(v, h)) != BlankScreen
  {
    BackToNotebookIsNeverOffered(v);
  }

  /** The state of App. */
  class AppState {
    var viewMode: ViewMode
    var selectedNotebook: Option<Notebook>

    constructor ()
      ensures viewMode == GridMode && selectedNotebook.None?
    {
      viewMode := GridMode;
      selectedNotebook := None;
    }

    function View(): AppView
      reads this
    {
      AppView(viewMode, selectedNotebook)
    }

    /** `handleSelectNotebook(notebook)`. */
    method HandleSelectNotebook(nb: Notebook)
      modifies this
      ensures View() == Run(old(View()), SelectNotebook(nb))
      ensures viewMode == NotebookMode && selectedNotebook == Some(nb)
    {
      selectedNotebook := Some(nb);
      viewMode := NotebookMode;
    }

    /** `handleOpenChat(notebook)`. */
    method HandleOpenChat(nb: Notebook)
      modifies this
      ensures View() == Run(old(View()), OpenChat(nb))
      ensures viewMode == ChatMode && selectedNotebook == Some(nb)
    {
      selectedNotebook := Some(nb);
      viewMode := ChatMode;
    }

    /** `handleBackToGrid()`. */
    method HandleBackToGrid()
      modifies this
      ensures View() == Run(old(View()), BackToGrid)
      ensures viewMode == GridMode && selectedNotebook.None?
    {
      viewMode := GridMode;
      selectedNotebook := None;
    }

    /** `handleBackToNotebook()`: the selection stays. */
    method HandleBackToNotebook()
      modifies this
      ensures View() == Run(old(View()), BackToNotebook)
      ensures viewMode == NotebookMode && selectedNotebook == old(selectedNotebook)
    {
      viewMode := NotebookMode;
    }
  }
}
