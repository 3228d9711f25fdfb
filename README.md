# A verified model of the cloud-notebook-knowl core

cloud-notebook-knowl is a small React application for keeping notebooks of
captured snippets: text, images, scripts and links. Three client-side hooks
persist the data: notebooks, content items and chat messages. A capture form
fills itself from the system clipboard. A chat panel sends a notebook's items,
rendered as text, to a language model together with the user's question.

This Dafny project models the application's core, one module per source file:

- `Data` (hooks/useData.ts) — the three stores. Each is a class with one
  sequence field. Each store operation replaces that field with a pure
  transform of the old list: a map, filter or spread.
- `Utils` (lib/utils.ts) — relative timestamps, truncation, and the
  link/script/text classifier with its regular expressions written out.
- `Clipboard` (hooks/useClipboard.ts) — the structured clipboard read is a loop
  over the clipboard entries, proved against a fold. The model also covers the
  plain-text fallback, one tick of the clipboard poll, and clearing the
  published record.
- `ContentCapture`, `ChatView`, `NotebookView`, `NotebookGrid`,
  `FloatingCapture`, `CreateNotebookForm`, `App` — the components.
  - Each component's state is a class, and each event handler is a method.
  - The method's postcondition ties the new state to pure functions: the tag
    parser, the chat context text, the content filters, the screen switch.
  - Properties of those functions are proved as lemmas.
- `Types`, `Strings`, `Seqs` — the records, and the JavaScript built-ins the
  core relies on: `trim`, `toLowerCase`, `split`, `join`, `includes`,
  `filter` and `map`.

The browser clipboard, the clock, the id generator, the HTML-to-text
extraction and the language model are not modelled: the model takes them as
parameters (values or functions).

Three consequences of the code as written are proved:

- A `//` or `*/` anywhere in a text makes it a script unless the whole
  trimmed text is a URL. So prose that contains a URL among other words is
  classified as a script (`Utils.CommentMarkerMakesScript`).
- The clipboard record's type is decided by the last entry whose image read
  succeeds. It is 'mixed' only when text had been read by then
  (`Clipboard.KindAtLastImage`, `Clipboard.ImageThenText`).
- Inside the chat branch of App.tsx:55, the test `viewMode === 'notebook'` is
  always false. ChatView's back button therefore always returns to the grid,
  and `handleBackToNotebook` is never reachable (`App.ChatBackGoesToGrid`,
  `App.BackToNotebookIsNeverOffered`).

In the classifier's comment pattern `/^[\s]*\/\*|\*\/|\/\//m`, the anchor
binds only the first alternative. An opening `/*` counts only after the
indentation at the start of a line, while `*/` and `//` count anywhere in the
text.

## Model

| member | source | states |
|---|---|---|
| Data.NotebookStore.constructor | src/hooks/useData.ts:6 | the notebook list starts empty |
| Data.NewNotebook | src/hooks/useData.ts:8-17 | the new record has the given id and name, the icon and colour given or else 📓 and blue, both timestamps equal to the clock reading, and no items |
| Data.NotebookStore.CreateNotebook | src/hooks/useData.ts:8-21 | the list becomes the old list with exactly the new notebook appended, and that notebook is returned |
| Data.PatchNotebook | src/hooks/useData.ts:27 | each supplied member replaces the old one and absent members stay; `updatedAt` is the clock reading whatever the update says; an empty update changes only `updatedAt` |
| Data.PatchIgnoresUpdatedAt | src/hooks/useData.ts:27 | an `updatedAt` in the update has no effect |
| Data.UpdateNotebooks | src/hooks/useData.ts:23-31 | same length and order; every notebook with the id is patched, every other one is unchanged; with no match the list is unchanged |
| Data.UpdateNotebooksTwice | src/hooks/useData.ts:23-31 | applying the same update twice stores the same list as applying it once |
| Data.NotebookStore.UpdateNotebook | src/hooks/useData.ts:23-31 | the list becomes UpdateNotebooks of the old list |
| Data.WithoutNotebook | src/hooks/useData.ts:33-35 | a notebook remains exactly when its id differs; each remaining notebook keeps its multiplicity; the order is kept |
| Data.WithoutNotebookTwice | src/hooks/useData.ts:33-35 | deleting twice is deleting once |
| Data.NotebookStore.DeleteNotebook | src/hooks/useData.ts:33-35 | the list becomes WithoutNotebook of the old list |
| Data.IncrementCount | src/hooks/useData.ts:37-45 | same length; notebooks with the id count one more item and carry the clock reading; every other notebook is unchanged |
| Data.IncrementTimesPointwise | src/hooks/useData.ts:37-45 | repeated increments act on each notebook on its own: a matching one is incremented every time, any other one never |
| Data.IncrementedTimesCount | src/hooks/useData.ts:41 | n increments add n to the count and leave `updatedAt` at the last clock reading; nothing else changes |
| Data.IncrementTimesAddsCount | src/hooks/useData.ts:37-45 | n calls raise each matching notebook's count by exactly n and change no other notebook |
| Data.NotebookStore.IncrementItemCount | src/hooks/useData.ts:37-45 | the list becomes IncrementCount of the old list |
| Data.ContentStore.constructor | src/hooks/useData.ts:57 | the content list starts empty |
| Data.Stamp | src/hooks/useData.ts:59-65 | the stored item is the caller's draft plus the id, with both timestamps equal to the clock reading |
| Data.ContentStore.AddContent | src/hooks/useData.ts:59-69 | the new item goes in front of the old list and is returned |
| Data.AddEach | src/hooks/useData.ts:59-69 | adding drafts one after another leaves them newest first, in front of the old list (a loop with invariants) |
| Data.AddThree | src/hooks/useData.ts:59-69 | adding A, B, C to an empty store leaves C, B, A |
| Data.PatchContent | src/hooks/useData.ts:75 | supplied members replace the old ones, absent ones stay, and `updatedAt` is the clock reading |
| Data.UpdateContents | src/hooks/useData.ts:71-79 | same length and order; items with the id are patched, others unchanged; with no match the list is unchanged |
| Data.ContentStore.UpdateContent | src/hooks/useData.ts:71-79 | the list becomes UpdateContents of the old list |
| Data.WithoutContent | src/hooks/useData.ts:81-83 | an item remains exactly when its id differs, with its multiplicity and in order |
| Data.WithoutContentTwice | src/hooks/useData.ts:81-83 | deleting twice is deleting once |
| Data.ContentStore.DeleteContent | src/hooks/useData.ts:81-83 | the list becomes WithoutContent of the old list |
| Data.ContentStore.ContentByNotebook | src/hooks/useData.ts:85-87 | exactly the items of that notebook, each with its multiplicity, in stored order |
| Data.ChatStore.constructor | src/hooks/useData.ts:99 | the message list starts empty |
| Data.StampMessage | src/hooks/useData.ts:101-106 | the stored message is the caller's message plus the id and the clock reading |
| Data.ChatStore.AddMessage | src/hooks/useData.ts:101-110 | the new message is appended after the old list and returned |
| Data.AppendKeepsChatOrder | src/hooks/useData.ts:108-113 | after appending, a notebook's conversation is its earlier messages followed by its new ones |
| Data.ChatStore.MessagesByNotebook | src/hooks/useData.ts:112-114 | exactly that notebook's messages, each with its multiplicity, in stored order |
| Data.WithoutChat | src/hooks/useData.ts:116-118 | a message remains exactly when it belongs to another notebook, with its multiplicity, in order |
| Data.ClearKeepsOtherChats | src/hooks/useData.ts:116-118 | clearing one notebook leaves every other notebook's conversation as it was |
| Data.ClearEmptiesChat | src/hooks/useData.ts:116-118 | after clearing, the notebook has no messages |
| Data.ClearWithoutMessages | src/hooks/useData.ts:116-118 | clearing a notebook that has no messages changes nothing |
| Data.ChatStore.ClearChatHistory | src/hooks/useData.ts:116-118 | the list becomes WithoutChat of the old list |
| Seqs.Filter | src/hooks/useData.ts:34 | `Array.filter`: an element remains exactly when the test holds, and the order is kept |
| Seqs.UpdateWhere | src/hooks/useData.ts:25-29 | the `map` with a ternary: same length, matching elements transformed, others unchanged |
| Seqs.Map | src/components/ChatView.tsx:52 | `Array.map`: same length, element i is f of element i |
| Strings.Trim | src/components/ContentCapture.tsx:66 | `trim`: the result is empty exactly when the string is all whitespace; otherwise it neither starts nor ends with whitespace |
| Strings.TrimIdempotent | src/components/ContentCapture.tsx:70 | trimming twice is trimming once |
| Strings.ToLower | src/components/NotebookGrid.tsx:25 | `toLowerCase` (ASCII letters only): same length, each character folded |
| Strings.ToLowerIdempotent | src/components/NotebookGrid.tsx:25 | folding twice is folding once |
| Strings.Split | src/components/ContentCapture.tsx:70 | `split` on one character: at least one piece, no piece holds the separator, and joining the pieces gives the string back |
| Strings.SplitJoin | src/components/ContentCapture.tsx:70 | splitting undoes joining when no piece holds the separator |
| Strings.SplitFirst | src/components/ContentCapture.tsx:39 | the first piece is the longest prefix without the separator |
| Strings.ParseNatToString | src/lib/utils.ts:17 | `String(n)` of a whole number reads back as n |
| Strings.NatToString | src/lib/utils.ts:17 | `String(n)`: one or more digits, starting with '0' exactly for 0, which is the single digit "0" |
| Utils.FormatTimestamp | src/lib/utils.ts:12-21 | the bucket is chosen by elapsed time against the minute, hour, day and week thresholds (both directions), and the count is the floor of the elapsed units; future timestamps give 'Just now' |
| Utils.AgeLabel | src/lib/utils.ts:16-19 | 'Just now', or the canonical decimal numeral of the count (no leading zeros, digits only) followed by 'm ago', 'h ago' or 'd ago'; none for a locale date |
| Utils.CountLabel | src/lib/utils.ts:17-19 | the label is a canonical decimal numeral whose value is the count, followed by the unit |
| Utils.ShowsCountIsRendering | src/lib/utils.ts:17-19 | a label that shows the count this way is exactly `${n}` followed by the unit: the rendering is unique |
| Strings.DecimalIsRendering | src/lib/utils.ts:17 | a canonical decimal numeral is `String` of its own value |
| Utils.TruncateText | src/lib/utils.ts:24-27 | a text that fits is returned unchanged; otherwise the result is its first maxLength characters followed by '...' |
| Utils.DefaultTruncation | src/lib/utils.ts:24-27 | with the default length of 100, a text of up to 100 characters is kept whole and a longer one becomes its first 100 characters and '...' |
| Utils.IsUrl | src/lib/utils.ts:43 | the URL pattern; its meaning is stated by Utils.UrlShape |
| Utils.KeywordAtLineStart | src/lib/utils.ts:37 | the keyword pattern at any line start; stated by Utils.KeywordLineIsCode and Utils.StartsWithKeywordIff |
| Utils.BracketAfterIndent | src/lib/utils.ts:38 | the bracket pattern; stated by Utils.BracketLineIsCode |
| Utils.Shebang | src/lib/utils.ts:39 | the shebang pattern without the `m` flag; stated by Utils.ShebangOnlyAtStart and Utils.ShebangMakesScript |
| Utils.CommentMarker | src/lib/utils.ts:40 | the three comment alternatives; stated by Utils.CommentMarkerIsCode and Utils.OpeningCommentLineIsCode |
| Utils.LooksLikeCode | src/lib/utils.ts:37-41 | some code pattern matches; stated by the lemmas on each pattern and by Utils.ProseLineIsText |
| Utils.DetectContentType | src/lib/utils.ts:35-48 | the classifier never answers 'image' |
| Utils.ProseLineIsText | src/lib/utils.ts:35-48 | the text branch: a single line that starts with a capital letter and holds no '/' or '*' matches no pattern and is classified as text |
| Utils.TextExample | src/lib/utils.ts:35-48 | "Hello, how are you?" is text |
| Utils.LinkIff | src/lib/utils.ts:43-45 | 'link' exactly when the trimmed text is http:// or https:// followed by one or more non-whitespace characters and nothing else |
| Utils.UrlShape | src/lib/utils.ts:43 | the URL pattern matches exactly a scheme followed by a non-empty run of non-whitespace |
| Utils.StartsWithKeywordIff | src/lib/utils.ts:37 | the keyword alternative tests against the ten listed keywords |
| Utils.CommentMarkerIsCode | src/lib/utils.ts:40 | `//` or `*/` anywhere matches a code pattern |
| Utils.CommentMarkerMakesScript | src/lib/utils.ts:40-46 | unless the text is a link, `//` or `*/` anywhere makes it a script |
| Utils.KeywordLineIsCode | src/lib/utils.ts:37 | a keyword at the start of a line matches, whatever follows it |
| Utils.KeywordLineMakesScript | src/lib/utils.ts:37-46 | unless the text is a link, a line starting with a keyword makes it a script |
| Utils.BracketLineIsCode | src/lib/utils.ts:38 | indentation followed by one of `<>{}[]` at a line start matches |
| Utils.BracketLineMakesScript | src/lib/utils.ts:38-46 | unless the text is a link, such a line makes it a script |
| Utils.OpeningCommentLineIsCode | src/lib/utils.ts:40 | indentation followed by an opening block-comment marker at a line start matches |
| Utils.OpeningCommentLineMakesScript | src/lib/utils.ts:40-46 | unless the text is a link, such a line makes it a script |
| Utils.ShebangMakesScript | src/lib/utils.ts:39-46 | leading whitespace, `#!` and a `/` or word character make the text a script (it is never a link) |
| Utils.ShebangOnlyAtStart | src/lib/utils.ts:39 | the shebang pattern matches only as the first non-whitespace of the whole text |
| Utils.HttpsUrlIsLink | src/lib/utils.ts:43-45 | https:// followed by a run of non-whitespace is a link |
| Utils.NotLinkUnlessH | src/lib/utils.ts:43-45 | no text whose first non-whitespace character is not 'h' is a link |
| Utils.UrlExample | src/lib/utils.ts:43-45 | "https://example.com/path" is a link |
| Utils.KeywordExample | src/lib/utils.ts:37-46 | "const x = 1" is a script |
| Utils.CommentExample | src/lib/utils.ts:40-46 | "  // a comment\nsome text" is a script |
| Utils.IndentedCommentIsScript | src/lib/utils.ts:40-46 | two spaces and `//` make a script whatever follows |
| Clipboard.ClipboardHook.constructor | src/hooks/useClipboard.ts:5 | no clipboard data at first |
| Clipboard.FirstImageType | src/hooks/useClipboard.ts:38 | the first listed `image/` type, or none exactly when no type starts with `image/` |
| Clipboard.ImageReadUsesFirstType | src/hooks/useClipboard.ts:38-41 | only the first image type's payload matters |
| Clipboard.ApplyEntry | src/hooks/useClipboard.ts:17-53 | each field a successful read sets takes the new value and the others keep theirs; an image read sets the type to 'mixed' when text is set, else 'image' |
| Clipboard.Collect | src/hooks/useClipboard.ts:14-54 | after any entries, an image is set exactly when the type is no longer 'text' |
| Clipboard.ClipboardRead | src/hooks/useClipboard.ts:7-68 | null exactly when the API is missing, or when both the structured read and the fallback fail; the fallback yields the plain text with type 'text'; otherwise the fold over the entries |
| Clipboard.ClipboardHook.ReadClipboard | src/hooks/useClipboard.ts:7-68 | the loop over the entries returns ClipboardRead (loop invariant: the record so far is the fold over the entries seen) |
| Clipboard.FieldSetIffSomeRead | src/hooks/useClipboard.ts:16-54 | a field ends up set exactly when some entry's read of it succeeded |
| Clipboard.LastReadWins | src/hooks/useClipboard.ts:16-54 | a field holds the value of the last entry whose read of it succeeded |
| Clipboard.KindTextIffNoImage | src/hooks/useClipboard.ts:14-54 | the type stays 'text' exactly when no image read succeeded |
| Clipboard.KindAtLastImage | src/hooks/useClipboard.ts:49 | the type is fixed at the last successful image read: 'mixed' when text was set by then, else 'image' |
| Clipboard.ImageThenText | src/hooks/useClipboard.ts:16-54 | an image entry followed by a text entry gives type 'image' with the text set |
| Clipboard.ClipboardHook.ClearClipboardData | src/hooks/useClipboard.ts:109 | the published record becomes null |
| Clipboard.PollStep | src/hooks/useClipboard.ts:73-84 | the last text changes exactly when the sampled text is non-empty and differs from it; then a full read is published; otherwise (an empty or unchanged sample, or a failed one) nothing changes, the published record included |
| Clipboard.PollSettles | src/hooks/useClipboard.ts:73-84 | a second tick with an unchanged clipboard changes nothing |
| Clipboard.ClipboardMonitor.constructor | src/hooks/useClipboard.ts:71 | the last text starts empty |
| Clipboard.ClipboardMonitor.CheckClipboard | src/hooks/useClipboard.ts:73-84 | the last text and the published record become PollStep of their old values |
| ContentCapture.TagPieces | src/components/ContentCapture.tsx:70 | one piece per field of the comma split, piece k being the trimmed field k; each holds no comma and has no whitespace at either end |
| ContentCapture.ParseTags | src/components/ContentCapture.tsx:70 | the tags are exactly the non-empty pieces, each with its multiplicity (with ParseTagsInOrder, in order); none is empty, holds a comma or has whitespace at an end |
| ContentCapture.ParseTagsInOrder | src/components/ContentCapture.tsx:70 | the tags keep the order they were written in |
| ContentCapture.ParseJoinedTags | src/components/ContentCapture.tsx:70 | clean tags written back comma-separated parse to the same list |
| ContentCapture.JoinedPiecesAreTags | src/components/ContentCapture.tsx:70 | the pieces of comma-joined trimmed tags are those tags |
| ContentCapture.StoredTags | src/components/ContentCapture.tsx:78 | no tags are stored exactly when the list is empty |
| ContentCapture.BlankTagsStoreNone | src/components/ContentCapture.tsx:70-78 | a blank tags field stores no tags |
| ContentCapture.TitleFromText | src/components/ContentCapture.tsx:39 | the first line cut to 100 characters, or 'Captured Content' when the first line is empty |
| ContentCapture.ClipboardFill | src/components/ContentCapture.tsx:30-43 | image data sets the data URL, 'Captured Image' and type image; else non-empty text (or the text extracted from the HTML) sets content, title and detected type; else nothing |
| ContentCapture.MixedDropsImage | src/components/ContentCapture.tsx:32-41 | 'mixed' data takes the text branch and never yields type image |
| ContentCapture.FallbackTextFills | src/components/ContentCapture.tsx:45-57 | plain text from the fallback read fills the form with that text |
| ContentCapture.CanSubmit | src/components/ContentCapture.tsx:66 | the submit guard; stated by ContentCapture.CanSubmitTrims |
| ContentCapture.SubmittedDraft | src/components/ContentCapture.tsx:72-81 | the item handed to addContent; its trimmed fields, its tags and its source are stated by ContentCapture.CaptureForm.HandleSubmit and ContentCapture.SubmitKeepsCounts |
| ContentCapture.CanSubmitTrims | src/components/ContentCapture.tsx:66 | the guard is the source's test on trimmed title, trimmed content and `isSubmitting` |
| ContentCapture.SubmitKeepsCounts | src/components/ContentCapture.tsx:72-83 | adding an item and incrementing its notebook keeps every count equal to that notebook's number of items |
| ContentCapture.CaptureForm.constructor | src/components/ContentCapture.tsx:24-28 | empty fields, type text, no submit running |
| ContentCapture.CaptureForm.Fill | src/components/ContentCapture.tsx:33-40 | a fill sets content, title and type; no fill changes nothing |
| ContentCapture.CaptureForm.OnClipboardData | src/components/ContentCapture.tsx:30-43 | the form takes ClipboardFill of the published data, or stays as it was |
| ContentCapture.CaptureForm.HandlePasteFromClipboard | src/components/ContentCapture.tsx:45-62 | a fresh read fills the form as ClipboardFill says; success toast exactly when the read returned data |
| ContentCapture.CaptureForm.HandleSubmit | src/components/ContentCapture.tsx:64-96 | it goes ahead exactly when the guard holds, and otherwise nothing changes. On submit: the trimmed item with its tags and 'manual_capture' goes first in the store, its notebook is incremented, the form and clipboard data are cleared, and a success toast is shown |
| ContentCapture.CaptureForm.Submit | src/components/ContentCapture.tsx:68-95 | after the guard: the item is stored first, counted, the form reset and the clipboard data cleared |
| ChatView.Block | src/components/ChatView.tsx:53 | one item's line of the context; stated by ChatView.BlockMentions |
| ChatView.ContextText | src/components/ChatView.tsx:52-54 | the items' blocks joined by newlines; stated by ChatView.ContextEmptyIff, ChatView.ContextBlockAt, ChatView.ContextBlocksAdjacent and ChatView.ContextMentionsEveryItem |
| ChatView.Prompt | src/components/ChatView.tsx:57-64 | the prompt template; stated by ChatView.PromptMentions |
| ChatView.CanSend | src/components/ChatView.tsx:37 | the send guard; stated by ChatView.CanSendTrims |
| ChatView.BlockMentions | src/components/ChatView.tsx:53 | an item's block is non-empty and contains its title, type name and content |
| ChatView.ContextEmptyIff | src/components/ChatView.tsx:52-54 | the context text is empty exactly when the notebook has no items |
| ChatView.ContextBlockAt | src/components/ChatView.tsx:52-54 | item k's block occurs whole at its offset in the context text |
| ChatView.ContextBlocksAdjacent | src/components/ChatView.tsx:52-54 | a newline follows item k's block and item k+1's block starts right after it: listing order, no overlap |
| ChatView.ContextMentionsEveryItem | src/components/ChatView.tsx:52-54 | every item's block is in the context text |
| ChatView.PromptMentions | src/components/ChatView.tsx:57-64 | the prompt contains the notebook name, the context text and the question |
| ChatView.CanSendTrims | src/components/ChatView.tsx:37 | the guard is the source's test on the trimmed input and `isLoading` |
| ChatView.Exchange | src/components/ChatView.tsx:39-77 | one submit stores the question, then the answer exactly when the model answered; all in this notebook |
| ChatView.ExchangeExtendsConversation | src/components/ChatView.tsx:45-74 | a submit appends the exchange to this notebook's conversation and leaves every other conversation as it was |
| ChatView.ChatSession.constructor | src/components/ChatView.tsx:20-21 | empty input, nothing in flight |
| ChatView.ChatSession.HandleSubmit | src/components/ChatView.tsx:35-81 | it sends exactly when the guard holds, and otherwise nothing changes. On send: the messages gain the exchange for the model's reply to the prompt built from the notebook's context and the trimmed question; a failure raises the error toast; the input is cleared and nothing is in flight |
| ChatView.ChatSession.Send | src/components/ChatView.tsx:39-80 | the accepted submit stores the question, asks the model, stores the answer or reports the failure, and ends the request |
| ChatView.ChatSession.HandleClearChat | src/components/ChatView.tsx:83-86 | this notebook's messages go, the others stay, and the success toast is shown |
| NotebookView.FilteredContent | src/components/NotebookView.tsx:26-31 | an item stays exactly when it matches the search and the type filter, with its multiplicity, in order |
| NotebookView.EmptyQueryMatches | src/components/NotebookView.tsx:27-28 | the empty search matches every item |
| NotebookView.EmptyFiltersKeepAll | src/components/NotebookView.tsx:26-31 | with no search and 'all', every item is listed in order |
| NotebookView.TypeFilterNarrows | src/components/NotebookView.tsx:26-31 | one type's list is the 'all' list filtered again |
| NotebookView.SearchIgnoresCase | src/components/NotebookView.tsx:27-28 | a query and its lowercased form list the same items |
| NotebookView.CountOf | src/components/NotebookView.tsx:40-43 | the number of items of a type is at most the total, and positive exactly when some item has that type |
| NotebookView.Counts | src/components/NotebookView.tsx:40-43 | the reduce as a fold; stated by NotebookView.CountsAreCounts and NotebookView.CountsSumToLength |
| NotebookView.CountsAreCounts | src/components/NotebookView.tsx:40-43 | the fold has a key exactly for the types present, and its value is that type's number of items |
| NotebookView.BumpShown | src/components/NotebookView.tsx:41 | one step adds one to the bumped type and nothing to the others |
| NotebookView.CountsSumToLength | src/components/NotebookView.tsx:40-43 | the four counts add up to the number of items |
| NotebookView.TypeCounts | src/components/NotebookView.tsx:40-43 | the reduce loop builds the fold: keys exactly for the types present, with their counts |
| NotebookView.Area | src/components/NotebookView.tsx:127-153 | 'No content yet' exactly when the notebook is empty; 'No content found' exactly when nothing passes the filters; otherwise one card per listed item |
| NotebookView.NoFiltersShowEverything | src/components/NotebookView.tsx:127-153 | with no filters, a non-empty notebook shows a card for every item |
| NotebookView.Card | src/components/NotebookView.tsx:185-196 | a picture exactly for an image stored as a data URL; otherwise the content cut to 150 characters, in monospace exactly for scripts |
| NotebookGrid.FilteredNotebooks | src/components/NotebookGrid.tsx:24-26 | a notebook stays exactly when its lowercased name contains the lowercased query, with its multiplicity, in order |
| NotebookGrid.EmptyQueryKeepsAll | src/components/NotebookGrid.tsx:24-26 | the empty query lists every notebook |
| NotebookGrid.SearchIgnoresCase | src/components/NotebookGrid.tsx:24-26 | a query and its lowercased form list the same notebooks |
| NotebookGrid.UnmatchedQueryListsNothing | src/components/NotebookGrid.tsx:24-26 | a query whose first character no name contains lists nothing |
| NotebookGrid.Area | src/components/NotebookGrid.tsx:68-90 | 'No notebooks yet' exactly when there are none; 'No notebooks found' exactly when the search lists none; otherwise one card per listed notebook |
| NotebookGrid.EmptyQueryShowsAll | src/components/NotebookGrid.tsx:68-90 | with no search, every notebook gets a card |
| FloatingCapture.QuickCaptureStep | src/components/FloatingCaptureButton.tsx:17-36 | no notebook: the error toast. One notebook: select it and open, whatever the clipboard holds. Several: open exactly when the read returned data, else the error toast |
| FloatingCapture.SingleNotebookIgnoresClipboard | src/components/FloatingCaptureButton.tsx:23-27 | with one notebook the clipboard does not matter |
| FloatingCapture.SingleNotebookCapturesThere | src/components/FloatingCaptureButton.tsx:23-27 | with one notebook the dialog opens on the form for that notebook |
| FloatingCapture.CaptureTarget | src/components/FloatingCaptureButton.tsx:81-83 | the form targets the chosen notebook, else the only one; there is no form exactly when none is chosen and there is not exactly one |
| FloatingCapture.ShowSelector | src/components/FloatingCaptureButton.tsx:60 | the selector's render condition; stated by FloatingCapture.SelectorOrForm and FloatingCapture.ResetAsksAgain |
| FloatingCapture.SelectorOrForm | src/components/FloatingCaptureButton.tsx:60-89 | with any notebook, the dialog shows exactly one of the selector and the form |
| FloatingCapture.View | src/components/FloatingCaptureButton.tsx:38-51 | nothing is rendered exactly when there are no notebooks; the clipboard icon shows exactly when there is clipboard data |
| FloatingCapture.QuickCapture.constructor | src/components/FloatingCaptureButton.tsx:14-15 | closed, nothing chosen |
| FloatingCapture.QuickCapture.HandleQuickCapture | src/components/FloatingCaptureButton.tsx:17-36 | the new state is QuickCaptureStep of the old one and the clipboard read |
| FloatingCapture.QuickCapture.SelectNotebook | src/components/FloatingCaptureButton.tsx:63 | the choice becomes the selected id |
| FloatingCapture.QuickCapture.OnSuccess | src/components/FloatingCaptureButton.tsx:84-87 | the dialog closes and the choice is forgotten |
| FloatingCapture.ResetAsksAgain | src/components/FloatingCaptureButton.tsx:60-87 | after a reset with several notebooks, the selector shows and there is no form |
| CreateNotebookForm.NotebookForm.constructor | src/components/CreateNotebookForm.tsx:15-17 | empty name, icon 📓, no submit running |
| CreateNotebookForm.DefaultIconIsOffered | src/components/CreateNotebookForm.tsx:11-16 | the initial icon is the first one offered |
| CreateNotebookForm.NotebookForm.SelectIcon | src/components/CreateNotebookForm.tsx:54 | the chosen icon becomes the selection |
| CreateNotebookForm.CanCreate | src/components/CreateNotebookForm.tsx:21 | the create guard; stated by CreateNotebookForm.CanCreateTrims |
| CreateNotebookForm.CreatedNotebook | src/components/CreateNotebookForm.tsx:23-25 | the createNotebook call; stated by CreateNotebookForm.CreatedNotebookIsClean |
| CreateNotebookForm.CanCreateTrims | src/components/CreateNotebookForm.tsx:21 | the guard is the source's test on the trimmed name and `isSubmitting` |
| CreateNotebookForm.CreatedNotebookIsClean | src/components/CreateNotebookForm.tsx:21-25 | the created notebook has a non-empty trimmed name, the chosen icon, the default colour and no items |
| CreateNotebookForm.NotebookForm.HandleSubmit | src/components/CreateNotebookForm.tsx:19-32 | it creates exactly when the guard holds, and otherwise nothing changes. On create: the notebook with the trimmed name and chosen icon is appended, the name is cleared, the icon reset, and no submit is running |
| CreateNotebookForm.NotebookForm.Create | src/components/CreateNotebookForm.tsx:23-31 | the accepted submit appends the notebook and resets the form |
| App.AppState.constructor | src/App.tsx:12-13 | the grid, with nothing selected |
| App.InitialIsGrid | src/App.tsx:12-13 | the app starts on the grid in a consistent state |
| App.Run | src/App.tsx:15-32 | select and open-chat set the mode and the notebook; back-to-grid clears the selection; back-to-notebook keeps it |
| App.AppState.HandleSelectNotebook | src/App.tsx:15-18 | the state becomes Run of the old state and the handler |
| App.AppState.HandleOpenChat | src/App.tsx:20-23 | the state becomes Run of the old state and the handler |
| App.AppState.HandleBackToGrid | src/App.tsx:25-28 | the state becomes Run of the old state and the handler |
| App.AppState.HandleBackToNotebook | src/App.tsx:30-32 | the state becomes Run of the old state and the handler |
| App.ScreenOf | src/App.tsx:37-57 | each branch renders exactly in its mode; the notebook and chat branches render only with a selected notebook, and show that notebook |
| App.ConsistentIsNeverBlank | src/App.tsx:37-57 | a consistent state always shows a screen |
| App.ChatBack | src/App.tsx:55 | ChatView's back action; stated by App.ChatBackGoesToGrid |
| App.ChatBackGoesToGrid | src/App.tsx:52-56 | in the chat branch, ChatView's back action is back-to-grid |
| App.BackToNotebookIsNeverOffered | src/App.tsx:30-56 | no screen offers back-to-notebook |
| App.OfferedHandlersKeepConsistent | src/App.tsx:15-57 | every handler a screen offers leads to a consistent state that shows a screen |

## Left out

- Rendering: markup, icons, styling, the scroll-to-bottom effect, and the `messages.length` empty state of the chat.
  - Of the views, the model covers only the choice between each view's empty states and its cards, and the body of a content card.
- NotebookView.Card: the card's tag badges (NotebookView.tsx:199-207), its title and its timestamp line are not modelled; only the body (picture or excerpt) is.
- NotebookView.Counts: a map from type to count, so the order in which `Object.entries` lists the type buttons (NotebookView.tsx:109) is not modelled.
- Persistence: `useKV` storage and its asynchronous `set` are modelled as immediate assignment to the store's field. Stores are not shared between components by identity.
- The clock and id generation (`Date.now`, `generateId`) are parameters.
  - `createNotebook` and `addContent` read the clock twice. The model uses one reading for both timestamps.
- ContentCapture.CaptureForm.Submit: passes one `now` to both `addContent` and `incrementItemCount`. The source reads `Date.now()` separately in each (useData.ts:62-63 and :41), so the item's timestamps and the notebook's `updatedAt` can differ by the time between the calls.
- `extractTextFromHtml` needs the DOM, so it is a function parameter `htmlText`.
- Data.NotebookStore.CreateNotebook: the record is built by the caller's code path. The model does not check that `generateId` gives unique ids.
- Data.ContentStore.DeleteContent: as in the source, deleting an item does not lower its notebook's `itemCount`. The counts invariant is proved for submits only (`ContentCapture.SubmitKeepsCounts`).
- Utils.FormatTimestamp: for ages of a week or more, `toLocaleDateString` is not rendered. The result carries the timestamp instead.
- Utils.TruncateText: lengths and cuts count code points. JavaScript's `length` and `substring` count UTF-16 code units, so a text with characters outside the Basic Multilingual Plane (emoji) is cut at a different place, and JavaScript can split a surrogate pair where the model cannot.
- ContentCapture.TitleFromText: the 100-character cut of the first line counts code points, not UTF-16 code units, as for Utils.TruncateText.
- NotebookView.Card: the 150-character excerpt counts code points, not UTF-16 code units, as for Utils.TruncateText.
- Strings.ToLower: folds ASCII letters only, not the full Unicode case mapping of `toLowerCase`.
- The whitespace set of `trim` and `\s` is a fixed list of code points. It includes the line terminators, which are the only ones the `m` flag's `^` treats as line starts.
- Clipboard: the browser clipboard is a value. The poll's own sample and the full read in the same tick see the same clipboard, and a change between the two awaits is not modelled.
  - The 1000 ms interval is not modelled, nor the click/keydown listeners that start the poll, nor their clean-up.
  - `console` logging is not modelled.
- Clipboard.ClipboardHook.ReadClipboard: a `getType` or `FileReader` failure is a per-type payload outcome. Rejection causes are not distinguishable.
- The language model call `spark.llm` is a function parameter from the prompt to an answer or a failure. `spark.llmPrompt` interpolation is plain concatenation.
- The notification toasts are a `toast` field holding the last message.
- The text inputs' `onChange` handlers are plain field assignments and are not modelled as methods. The search query and the type filter are parameters of the view functions.
  - `selectedType` is a datatype over 'all' and the four content types, because the buttons set no other value.
- The Radix `Dialog` open/close toggling of its own trigger and overlay is not modelled. Only the component's explicit `setIsDialogOpen` calls are.
- FloatingCapture.QuickCaptureStep: the zero-notebook branch is modelled as written, although the component renders nothing then, so the button cannot be clicked.
- A notebook held in App's `selectedNotebook` is a snapshot: later store changes do not update it, as in the source.
