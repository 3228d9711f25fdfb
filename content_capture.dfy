/** components/ContentCapture.tsx: the capture form. Tags are parsed from a
    comma-separated field, the title of clipboard text is derived from its first
    line, clipboard data fills the form, and a submit stores one item and counts
    it in its notebook. */
module ContentCapture {
  import opened Types
  import opened Strings
  import opened Seqs
  import opened Utils
  import opened Data
  import opened Clipboard

  // ---------------------------------------------------------------- tags

  /** `filter(Boolean)` on strings. */
  function NonBlank(t: string): bool {
    t != ""
  }

  /** `tags.split(',').map(tag => tag.trim())`: one piece per comma-separated
      field, each trimmed. */
  function TagPieces(tags: string): (r: seq<string>)
    ensures |r| == |Split(tags, ',')|
    ensures forall k :: 0 <= k < |r| ==> r[k] == Trim(Split(tags, ',')[k])
    ensures forall k :: 0 <= k < |r| ==> ',' !in r[k] && Trim(r[k]) == r[k]
  {
    TrimEach(Split(tags, ','))
  }

  /** The comma-free pieces, each trimmed. */
  function TrimEach(pieces: seq<string>): (r: seq<string>)
    requires forall k :: 0 <= k < |pieces| ==> ',' !in pieces[k]
    ensures |r| == |pieces|
    ensures forall k :: 0 <= k < |r| ==> r[k] == Trim(pieces[k])
    ensures forall k :: 0 <= k < |r| ==> ',' !in r[k] && Trim(r[k]) == r[k]
  {
    TrimmedPieces(pieces);
    Map(pieces, Trim)
  }

  lemma TrimmedPieces(pieces: seq<string>)
    requires forall k :: 0 <= k < |pieces| ==> ',' !in pieces[k]
    ensures forall k :: 0 <= k < |pieces| ==> ',' !in Trim(pieces[k]) && Trim(Trim(pieces[k])) == Trim(pieces[k])
  {
    forall k | 0 <= k < |pieces|
      ensures ',' !in Trim(pieces[k]) && Trim(Trim(pieces[k])) == Trim(pieces[k])
    {
      TrimIdempotent(pieces[k]);
      if ',' in Trim(pieces[k]) {
        TrimFromInside(pieces[k], ',');
      }
    }
  }

  /** `tags.split(',').map(tag => tag.trim()).filter(Boolean)`: the non-empty
      trimmed pieces, every occurrence, in order. No tag is empty, holds a comma, or has whitespace
      at either end. */
  function ParseTags(tags: string): (r: seq<string>)
    ensures forall k :: 0 <= k < |r| ==> r[k] != "" && ',' !in r[k] && Trim(r[k]) == r[k]
    ensures forall x :: x in r <==> x != "" && x in TagPieces(tags)
    ensures forall x :: multiset(r)[x] == if x != "" then multiset(TagPieces(tags))[x] else 0
  {
    var pieces := TagPieces(tags);
    var r := Filter(pieces, NonBlank);
    NonBlankMultiset(pieces);
    FilteredPiecesClean(pieces, r);
    r
  }

  /** The tags keep the order they were written in. */
  lemma ParseTagsInOrder(tags: string)
    ensures IsSubsequence(ParseTags(tags), TagPieces(tags))
  {
    FilterIsSubsequence(TagPieces(tags), NonBlank);
  }

  /** `filter(Boolean)` keeps every occurrence of a non-empty piece and none of "". */
  lemma NonBlankMultiset(pieces: seq<string>)
    ensures forall x :: multiset(Filter(pieces, NonBlank))[x] == if x != "" then multiset(pieces)[x] else 0
  {
    FilterMultiset(pieces, NonBlank);
  }

  lemma FilteredPiecesClean(pieces: seq<string>, r: seq<string>)
    requires forall k :: 0 <= k < |pieces| ==> ',' !in pieces[k] && Trim(pieces[k]) == pieces[k]
    requires forall x :: x in r ==> x != "" && x in pieces
    ensures forall k :: 0 <= k < |r| ==> r[k] != "" && ',' !in r[k] && Trim(r[k]) == r[k]
  {
    forall k | 0 <= k < |r| ensures r[k] != "" && ',' !in r[k] && Trim(r[k]) == r[k] {
      assert r[k] in r;
      var j :| 0 <= j < |pieces| && pieces[j] == r[k];
    }
  }

  /** Tags written back as a comma-separated list parse to the same list. */
  lemma ParseJoinedTags(ts: seq<string>)
    requires |ts| >= 1
    requires forall k :: 0 <= k < |ts| ==> ts[k] != "" && ',' !in ts[k] && Trim(ts[k]) == ts[k]
    ensures ParseTags(Join(ts, ",")) == ts
  {
    JoinedPiecesAreTags(ts);
    FilterKeepsAll(ts, NonBlank);
  }

  lemma JoinedPiecesAreTags(ts: seq<string>)
    requires |ts| >= 1
    requires forall k :: 0 <= k < |ts| ==> ',' !in ts[k] && Trim(ts[k]) == ts[k]
    ensures TagPieces(Join(ts, ",")) == ts
  {
    SplitJoin(ts, ',');
    TrimmedStay(ts);
  }

  lemma TrimmedStay(ts: seq<string>)
    requires forall k :: 0 <= k < |ts| ==> Trim(ts[k]) == ts[k]
    ensures Map(ts, Trim) == ts
  {
  }

  /** `tagList.length > 0 ? tagList : undefined` */
  function StoredTags(tagList: seq<string>): (r: Option<seq<string>>)
    ensures r.None? <==> tagList == []
    ensures r.Some? ==> r.value == tagList
  {
    if |tagList| > 0 then Some(tagList) else None
  }

  /** A blank tags field stores no tags. */
  lemma BlankTagsStoreNone(tags: string)
    requires AllWhitespace(tags) && ',' !in tags
    ensures StoredTags(ParseTags(tags)) == None
  {
    assert Split(tags, ',') == [tags];
    assert Trim(tags) == "";
    assert TagPieces(tags) == [""];
    var r := ParseTags(tags);
    assert r == Filter([""], NonBlank);
  }

  // ---------------------------------------------------------------- title

  const MaxTitleLength: nat := 100
  const CapturedContent: string := "Captured Content"
  const CapturedImage: string := "Captured Image"

  /** `text.split('\n')[0].substring(0, 100) || 'Captured Content'`: the first line
      cut to 100 characters, or the fallback title when the first line is empty. */
  function TitleFromText(text: string): (r: string)
    ensures text == "" || text[0] == '\n' ==> r == CapturedContent
    ensures text != "" && text[0] != '\n' ==>
      r != "" && IsPrefix(r, text) && '\n' !in r && |r| <= MaxTitleLength
      && (|r| < MaxTitleLength ==> |r| == |text| || text[|r|] == '\n')
  {
    var line := Split(text, '\n')[0];
    SplitFirst(text, '\n');
    var t := line[..if |line| < MaxTitleLength then |line| else MaxTitleLength];
    assert line[..|t|] == t;
    if t == "" then CapturedContent else t
  }

  // ---------------------------------------------------------------- clipboard to form

  /** What clipboard data writes into the form. */
  datatype FormFill = FormFill(content: string, title: string, kind: ContentType)

  /** The mapping shared by the clipboard effect and the paste button. Image data
      with an image fills in its data URL; otherwise non-empty text (or, when HTML
      is present, the text extracted from it by `htmlText`) fills in the text, a
      title from its first line, and its detected type; otherwise nothing. */
  function ClipboardFill(d: ClipboardData, htmlText: string -> string): (r: Option<FormFill>)
    ensures d.kind == ClipImage && Truthy(d.image) ==> r == Some(FormFill(d.image.value, CapturedImage, Image))
    ensures !(d.kind == ClipImage && Truthy(d.image)) && Truthy(d.text) ==>
      var text := if Truthy(d.html) then htmlText(d.html.value) else d.text.value;
      r == Some(FormFill(text, TitleFromText(text), DetectContentType(text)))
    ensures r.None? <==> !(d.kind == ClipImage && Truthy(d.image)) && !Truthy(d.text)
  {
    if d.kind == ClipImage && Truthy(d.image) then Some(FormFill(d.image.value, CapturedImage, Image))
    else if Truthy(d.text) then
      var text := if Truthy(d.html) then htmlText(d.html.value) else d.text.value;
      Some(FormFill(text, TitleFromText(text), DetectContentType(text)))
    else None
  }

  /** Data of type 'mixed' takes the text branch: its image is dropped and the
      form never gets the type 'image'. */
  lemma MixedDropsImage(d: ClipboardData, htmlText: string -> string)
    requires d.kind == ClipMixed
    ensures ClipboardFill(d, htmlText).Some? ==> ClipboardFill(d, htmlText).value.kind != Image
    ensures ClipboardFill(d, htmlText).Some? <==> Truthy(d.text)
  {
  }

  /** Plain text pasted through the fallback read fills the form with that text. */
  lemma FallbackTextFills(cb: SystemClipboard, htmlText: string -> string)
    requires cb.available && cb.entries.None? && cb.plainText.Read? && cb.plainText.value != ""
    ensures ClipboardRead(cb).Some?
    ensures ClipboardFill(ClipboardRead(cb).value, htmlText)
      == Some(FormFill(cb.plainText.value, TitleFromText(cb.plainText.value), DetectContentType(cb.plainText.value)))
  {
  }

  // ---------------------------------------------------------------- submit

  const ManualCapture: string := "manual_capture"
  const AddedMessage: string := "Content added successfully"
  const PastedMessage: string := "Content pasted from clipboard"
  const ReadFailedMessage: string := "Failed to read clipboard"

  /** The guard of `handleSubmit`: `!title.trim() || !content.trim() || isSubmitting`
      stops it, and a string trims to empty exactly when it is all whitespace. */
  predicate CanSubmit(title: string, content: string, isSubmitting: bool) {
    !AllWhitespace(title) && !AllWhitespace(content) && !isSubmitting
  }

  lemma CanSubmitTrims(title: string, content: string, isSubmitting: bool)
    ensures CanSubmit(title, content, isSubmitting) <==> Trim(title) != "" && Trim(content) != "" && !isSubmitting
  {
  }

  /** The item `handleSubmit` passes to `addContent`. */
  function SubmittedDraft(notebookId: string, kind: ContentType, title: string, content: string, tags: string): ContentDraft {
    ContentDraft(notebookId, kind, Trim(title), Trim(content),
      Some(Metadata(None, None, StoredTags(ParseTags(tags)), Some(ManualCapture))))
  }

  /** Every notebook's count is the number of stored items that belong to it. */
  predicate CountsMatch(ns: seq<Notebook>, cs: seq<ContentItem>) {
    forall i :: 0 <= i < |ns| ==> ns[i].itemCount == |Filter(cs, InNotebook(ns[i].id))|
  }

  /** A submit (one item added, its notebook counted once more) keeps every
      notebook's count equal to the number of its items. */
  lemma SubmitKeepsCounts(ns: seq<Notebook>, cs: seq<ContentItem>, item: ContentItem, now: int)
    requires CountsMatch(ns, cs)
    ensures CountsMatch(IncrementCount(ns, item.notebookId, now), [item] + cs)
  {
    var ns' := IncrementCount(ns, item.notebookId, now);
    forall i | 0 <= i < |ns'|
      ensures ns'[i].itemCount == |Filter([item] + cs, InNotebook(ns'[i].id))|
    {
      FilterConcat([item], cs, InNotebook(ns[i].id));
      assert ns'[i].id == ns[i].id;
    }
  }

  /** The form's fields, its submit flag and its last notification. */
  datatype FormFields = FormFields(title: string, content: string, tags: string, detectedType: ContentType,
                                   isSubmitting: bool, toast: Toast)

  /** The form after a successful submit: cleared, idle, and reporting success. */
  const SubmittedForm := FormFields("", "", "", Text, false, SuccessToast(AddedMessage))

  /** The state of one capture form, and the stores and clipboard hook it uses. */
  class CaptureForm {
    const notebookId: string
    const contents: ContentStore
    const notebooks: NotebookStore
    const clipboard: ClipboardHook
    var title: string
    var content: string
    var tags: string
    var isSubmitting: bool
    var detectedType: ContentType
    var toast: Toast

    constructor (notebookId: string, contents: ContentStore, notebooks: NotebookStore, clipboard: ClipboardHook)
      ensures this.notebookId == notebookId && this.contents == contents
      ensures this.notebooks == notebooks && this.clipboard == clipboard
      ensures title == "" && content == "" && tags == "" && !isSubmitting && detectedType == Text
      ensures toast == NoToast
    {
      this.notebookId := notebookId;
      this.contents := contents;
      this.notebooks := notebooks;
      this.clipboard := clipboard;
      title, content, tags := "", "", "";
      isSubmitting := false;
      detectedType := Text;
      toast := NoToast;
    }

    method Fill(f: Option<FormFill>)
      modifies this`title, this`content, this`detectedType
      ensures f.Some? ==> content == f.value.content && title == f.value.title && detectedType == f.value.kind
      ensures f.None? ==> content == old(content) && title == old(title) && detectedType == old(detectedType)
    {
      if f.Some? {
        content := f.value.content;
        title := f.value.title;
        detectedType := f.value.kind;
      }
    }

    /** The effect that runs when the hook's `clipboardData` changes. */
    method OnClipboardData(htmlText: string -> string)
      modifies this`title, this`content, this`detectedType
      ensures var f := if clipboard.clipboardData.Some? then ClipboardFill(clipboard.clipboardData.value, htmlText) else None;
        (f.Some? ==> content == f.value.content && title == f.value.title && detectedType == f.value.kind)
        && (f.None? ==> content == old(content) && title == old(title) && detectedType == old(detectedType))
    {
      if clipboard.clipboardData.Some? {
        Fill(ClipboardFill(clipboard.clipboardData.value, htmlText));
      }
    }

    /** `handlePasteFromClipboard()`: a fresh read fills the form; the toast says
        whether the read returned anything. */
    method HandlePasteFromClipboard(cb: SystemClipboard, htmlText: string -> string)
      modifies this`title, this`content, this`detectedType, this`toast
      ensures var data := ClipboardRead(cb);
        var f := if data.Some? then ClipboardFill(data.value, htmlText) else None;
        (f.Some? ==> content == f.value.content && title == f.value.title && detectedType == f.value.kind)
        && (f.None? ==> content == old(content) && title == old(title) && detectedType == old(detectedType))
        && toast == if data.Some? then SuccessToast(PastedMessage) else ErrorToast(ReadFailedMessage)
    {
      var data := clipboard.ReadClipboard(cb);
      if data.Some? {
        Fill(ClipboardFill(data.value, htmlText));
        toast := SuccessToast(PastedMessage);
      } else {
        toast := ErrorToast(ReadFailedMessage);
      }
    }

    /** The form's own state. */
    function Fields(): FormFields
      reads this
    {
      FormFields(title, content, tags, detectedType, isSubmitting, toast)
    }

    /** The item the form's fields describe. */
    function Draft(): ContentDraft
      reads this
    {
      SubmittedDraft(notebookId, detectedType, title, content, tags)
    }

    /** `handleSubmit()`. Unless the trimmed title or content is empty or a submit
        is running, it adds one item (the trimmed fields, the detected type, the
        parsed tags and the manual-capture source), counts it in this notebook,
        clears the form and the clipboard data, and reports success (the
        `submitted` result is the call of `onSuccess`). Otherwise nothing changes. */
    method HandleSubmit(id: string, now: int) returns (submitted: bool)
      modifies this`title, this`content, this`tags, this`detectedType, this`isSubmitting, this`toast
      modifies contents, notebooks, clipboard
      ensures submitted == old(CanSubmit(title, content, isSubmitting))
      ensures !submitted ==>
        Fields() == old(Fields()) && contents.content == old(contents.content)
        && notebooks.notebooks == old(notebooks.notebooks) && clipboard.clipboardData == old(clipboard.clipboardData)
      ensures submitted ==> contents.content == [Stamp(old(Draft()), id, now)] + old(contents.content)
      ensures submitted ==> notebooks.notebooks == IncrementCount(old(notebooks.notebooks), notebookId, now)
      ensures submitted ==> Fields() == SubmittedForm && clipboard.clipboardData.None?
    {
      if !CanSubmit(title, content, isSubmitting) {
        return false;
      }
      Submit(Draft(), id, now);
      submitted := true;
    }

    /** The submit once the guard has passed: mark it running, then the body of
        the `try` block and its `finally`: store the item, count it, reset the
        form, clear the clipboard data, report success. */
    method Submit(draft: ContentDraft, id: string, now: int)
      modifies this`title, this`content, this`tags, this`detectedType, this`isSubmitting, this`toast
      modifies contents, notebooks, clipboard
      ensures contents.content == [Stamp(draft, id, now)] + old(contents.content)
      ensures notebooks.notebooks == IncrementCount(old(notebooks.notebooks), notebookId, now)
      ensures Fields() == SubmittedForm && clipboard.clipboardData.None?
    {
      isSubmitting := true;
      var _ := contents.AddContent(draft, id, now);
      notebooks.IncrementItemCount(notebookId, now);
      title, content, tags := "", "", "";
      detectedType := Text;
      clipboard.ClearClipboardData();
      toast := SuccessToast(AddedMessage);
      isSubmitting := false;
    }
  }
}
