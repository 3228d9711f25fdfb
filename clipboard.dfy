/** hooks/useClipboard.ts: reading the system clipboard into a ClipboardData
    record, the fallback to plain text, the one-second poll that publishes a new
    read when the clipboard text changes, and clearing the published record.
    The browser clipboard is a value: whether the API exists, the outcome of the
    structured read (its entries, or a failure), and the outcome of the
    plain-text read. Each entry lists its MIME types and, per type, whether
    fetching that payload succeeds and what it yields; for an image the yield is
    the data URL the file reader produces. */
module Clipboard {
  import opened Types
  import opened Strings

  datatype Outcome = Read(value: string) | Failed

  /** One ClipboardItem: its `types` and what `getType(t)` yields for each. A type
      without a payload entry fails like a rejected `getType`. */
  datatype ClipboardEntry = ClipboardEntry(types: seq<string>, payload: map<string, Outcome>)

  /** The browser's clipboard: `navigator.clipboard` exists or not, `read()`
      resolves to entries or rejects (None), `readText()` resolves or rejects. */
  datatype SystemClipboard = SystemClipboard(
    available: bool,
    entries: Option<seq<ClipboardEntry>>,
    plainText: Outcome)

  /** The value `getType(t)` resolves to, if it resolves. */
  function Fetch(e: ClipboardEntry, t: string): Option<string> {
    if t in e.payload && e.payload[t].Read? then Some(e.payload[t].value) else None
  }

  /** The first listed type under `image/`, which is the only image type read. */
  function FirstImageType(types: seq<string>): (r: Option<string>)
    ensures r.None? <==> forall i :: 0 <= i < |types| ==> !IsPrefix("image/", types[i])
    ensures r.Some? ==>
      exists i :: 0 <= i < |types| && types[i] == r.value && IsPrefix("image/", types[i])
        && (forall j :: 0 <= j < i ==> !IsPrefix("image/", types[j]))
  {
    if types == [] then None
    else if IsPrefix("image/", types[0]) then Some(types[0])
    else
      var r := FirstImageType(types[1..]);
      assert forall i :: 1 <= i < |types| ==> types[i] == types[1..][i - 1];
      r
  }

  /** What reading the entry's text yields: nothing unless it lists text/plain and the read succeeds. */
  function TextRead(e: ClipboardEntry): Option<string> {
    if "text/plain" in e.types then Fetch(e, "text/plain") else None
  }

  function HtmlRead(e: ClipboardEntry): Option<string> {
    if "text/html" in e.types then Fetch(e, "text/html") else None
  }

  /** The data URL of the entry's first image type, if it reads. */
  function ImageRead(e: ClipboardEntry): Option<string> {
    var t := FirstImageType(e.types);
    if t.Some? then Fetch(e, t.value) else None
  }

  /** Only the first image type matters: changing what any other type yields
      does not change the image read. */
  lemma ImageReadUsesFirstType(e: ClipboardEntry, t: string, o: Outcome)
    requires FirstImageType(e.types) != Some(t)
    ensures ImageRead(e.(payload := e.payload[t := o])) == ImageRead(e)
  {
  }

  /** The three fields a read can set. */
  datatype Field = TextField | HtmlField | ImageField

  function FieldOf(d: ClipboardData, f: Field): Option<string> {
    match f
    case TextField => d.text
    case HtmlField => d.html
    case ImageField => d.image
  }

  function FieldRead(e: ClipboardEntry, f: Field): Option<string> {
    match f
    case TextField => TextRead(e)
    case HtmlField => HtmlRead(e)
    case ImageField => ImageRead(e)
  }

  /** `{ type: 'text' }` */
  const Empty: ClipboardData := ClipboardData(None, None, None, ClipText)

  /** One pass of the loop body: text, then HTML, then the image. A field whose
      read succeeds takes the new value, a failed or absent read leaves it as it
      was; when an image is read the type becomes 'mixed' if text is set (and
      non-empty) at that moment and 'image' otherwise. */
  function ApplyEntry(d: ClipboardData, e: ClipboardEntry): (r: ClipboardData)
    ensures forall f :: FieldOf(r, f) == if FieldRead(e, f).Some? then FieldRead(e, f) else FieldOf(d, f)
    ensures ImageRead(e).None? ==> r.kind == d.kind
    ensures ImageRead(e).Some? ==> r.kind == if Truthy(r.text) then ClipMixed else ClipImage
  {
    var t := if TextRead(e).Some? then d.(text := TextRead(e)) else d;
    var h := if HtmlRead(e).Some? then t.(html := HtmlRead(e)) else t;
    if ImageRead(e).Some? then h.(image := ImageRead(e), kind := if Truthy(h.text) then ClipMixed else ClipImage)
    else h
  }

  /** The record the loop has built after the given entries. An image is set exactly
      when the type is no longer 'text'. */
  function Collect(entries: seq<ClipboardEntry>): (r: ClipboardData)
    ensures r.image.Some? <==> r.kind != ClipText
  {
    if entries == [] then Empty
    else ApplyEntry(Collect(entries[..|entries| - 1]), entries[|entries| - 1])
  }

  /** `readClipboard()`: the structured read, the plain-text fallback when it
      rejects, and null when the API is missing or the fallback fails too. */
  function ClipboardRead(cb: SystemClipboard): (r: Option<ClipboardData>)
    ensures r.None? <==> !cb.available || (cb.entries.None? && cb.plainText.Failed?)
    ensures cb.available && cb.entries.None? && r.Some? ==>
      r.value == ClipboardData(Some(cb.plainText.value), None, None, ClipText)
    ensures cb.available && cb.entries.Some? ==> r == Some(Collect(cb.entries.value))
  {
    if !cb.available then None
    else if cb.entries.Some? then Some(Collect(cb.entries.value))
    else if cb.plainText.Read? then Some(ClipboardData(Some(cb.plainText.value), None, None, ClipText))
    else None
  }

  /** A field ends up set exactly when some entry's read of it succeeded. */
  lemma {:induction false} FieldSetIffSomeRead(entries: seq<ClipboardEntry>, f: Field)
    ensures FieldOf(Collect(entries), f).Some? <==> exists k :: 0 <= k < |entries| && FieldRead(entries[k], f).Some?
  {
    if entries != [] {
      var n := |entries| - 1;
      var init := entries[..n];
      FieldSetIffSomeRead(init, f);
      assert forall k :: 0 <= k < n ==> init[k] == entries[k];
    }
  }

  /** Later entries overwrite earlier ones: the field holds the value of the
      last entry whose read of it succeeded. */
  lemma {:induction false} LastReadWins(entries: seq<ClipboardEntry>, f: Field, k: nat)
    requires k < |entries| && FieldRead(entries[k], f).Some?
    requires forall j :: k < j < |entries| ==> FieldRead(entries[j], f).None?
    ensures FieldOf(Collect(entries), f) == FieldRead(entries[k], f)
  {
    var n := |entries| - 1;
    if k < n {
      var init := entries[..n];
      assert forall j :: k < j < n ==> init[j] == entries[j];
      LastReadWins(init, f, k);
    }
  }

  /** The type stays 'text' exactly when no entry's image read succeeded. */
  lemma KindTextIffNoImage(entries: seq<ClipboardEntry>)
    ensures Collect(entries).kind == ClipText <==> forall k :: 0 <= k < |entries| ==> ImageRead(entries[k]).None?
  {
    FieldSetIffSomeRead(entries, ImageField);
  }

  /** The type is decided at the last image read: 'mixed' when text was set by
      then (that entry's own text read included), 'image' otherwise. Text read
      from later entries does not change it. */
  lemma {:induction false} KindAtLastImage(entries: seq<ClipboardEntry>, k: nat)
    requires k < |entries| && ImageRead(entries[k]).Some?
    requires forall j :: k < j < |entries| ==> ImageRead(entries[j]).None?
    ensures Collect(entries).kind == if Truthy(Collect(entries[..k + 1]).text) then ClipMixed else ClipImage
  {
    var n := |entries| - 1;
    if k == n {
      assert entries[..k + 1] == entries;
    } else {
      var init := entries[..n];
      assert Collect(entries) == ApplyEntry(Collect(init), entries[n]);
      assert ImageRead(entries[n]).None?;
      assert forall j :: k < j < n ==> init[j] == entries[j];
      KindAtLastImage(init, k);
      assert init[..k + 1] == entries[..k + 1];
    }
  }

  /** An image read with no text first gives 'image' even when a later entry brings text. */
  lemma ImageThenText(img: ClipboardEntry, txt: ClipboardEntry)
    requires TextRead(img).None? && ImageRead(img).Some?
    requires TextRead(txt).Some? && ImageRead(txt).None?
    ensures Collect([img, txt]).kind == ClipImage
    ensures Collect([img, txt]).text == TextRead(txt)
  {
    assert [img, txt][..1] == [img];
    assert [img][..0] == [];
    var first := Collect([img]);
    assert first == ApplyEntry(Collect([]), img);
    assert FieldOf(first, TextField) == None;
    assert first.kind == ClipImage;
  }

  /** The `clipboardData` state of `useClipboard`, and `readClipboard`. */
  class ClipboardHook {
    var clipboardData: Option<ClipboardData>

    constructor ()
      ensures clipboardData.None?
    {
      clipboardData := None;
    }

    /** `readClipboard()`: the loop over the entries, as the source writes it. */
    method ReadClipboard(cb: SystemClipboard) returns (r: Option<ClipboardData>)
      ensures r == ClipboardRead(cb)
    {
      if !cb.available {
        return None;
      }
      if cb.entries.None? {
        if cb.plainText.Read? {
          return Some(ClipboardData(Some(cb.plainText.value), None, None, ClipText));
        }
        return None;
      }
      var entries := cb.entries.value;
      var result := Empty;
      var i := 0;
      while i < |entries|
        invariant 0 <= i <= |entries|
        invariant result == Collect(entries[..i])
      {
        var e := entries[i];
        if "text/plain" in e.types {
          var text := Fetch(e, "text/plain");
          if text.Some? {
            result := result.(text := text);
          }
        }
        if "text/html" in e.types {
          var html := Fetch(e, "text/html");
          if html.Some? {
            result := result.(html := html);
          }
        }
        var imageType := FirstImageType(e.types);
        if imageType.Some? {
          var url := Fetch(e, imageType.value);
          if url.Some? {
            result := result.(image := url, kind := if Truthy(result.text) then ClipMixed else ClipImage);
          }
        }
        assert entries[..i + 1][..i] == entries[..i];
        i := i + 1;
      }
      assert entries[..i] == entries;
      return Some(result);
    }

    /** `clearClipboardData()`. */
    method ClearClipboardData()
      modifies this
      ensures clipboardData.None?
    {
      clipboardData := None;
    }
  }

  /** What the poll keeps between ticks: the last text it saw, and the record it published. */
  datatype PollState = PollState(lastText: string, published: Option<ClipboardData>)

  /** One tick of `checkClipboard`: when the sampled text is non-empty and differs
      from the last one seen, it becomes the last text and a full read is
      published (null included); otherwise, and when sampling fails, nothing changes. */
  function PollStep(s: PollState, cb: SystemClipboard): (r: PollState)
    ensures r != s ==> cb.available && cb.plainText.Read? && r.lastText == cb.plainText.value
    ensures r.lastText != s.lastText <==>
      cb.available && cb.plainText.Read? && cb.plainText.value != s.lastText && cb.plainText.value != ""
    ensures r.lastText != s.lastText ==> r.published == ClipboardRead(cb)
    ensures r.lastText == s.lastText ==> r == s
  {
    if cb.available && cb.plainText.Read? && cb.plainText.value != s.lastText && |cb.plainText.value| > 0 then
      PollState(cb.plainText.value, ClipboardRead(cb))
    else s
  }

  /** A second tick over an unchanged clipboard changes nothing. */
  lemma PollSettles(s: PollState, cb: SystemClipboard)
    ensures PollStep(PollStep(s, cb), cb) == PollStep(s, cb)
  {
  }

  /** The closure `monitorClipboard` sets up: its `lastText`, and the hook whose state it writes. */
  class ClipboardMonitor {
    var lastText: string
    const hook: ClipboardHook

    constructor (hook: ClipboardHook)
      ensures lastText == "" && this.hook == hook
    {
      lastText := "";
      this.hook := hook;
    }

    /** `checkClipboard()`. */
    method CheckClipboard(cb: SystemClipboard)
      modifies this`lastText, hook`clipboardData
      ensures PollState(lastText, hook.clipboardData) == PollStep(PollState(old(lastText), old(hook.clipboardData)), cb)
    {
      if !cb.available || cb.plainText.Failed? {
        return;
      }
      var text := cb.plainText.value;
      if text != lastText && |text| > 0 {
        lastText := text;
        var data := hook.ReadClipboard(cb);
        hook.clipboardData := data;
      }
    }
  }
}
