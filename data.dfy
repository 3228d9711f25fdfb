/** The three persisted lists of hooks/useData.ts: notebooks, content items and
    chat messages. Each hook owns one list and replaces it as a whole on every
    change; the replacement is a map, filter or spread over the current list.
    Ids and clock readings are supplied by the caller. */
module Data {
  import opened Types
  import opened Seqs

  const DefaultIcon: string := "\U{1F4D3}"
  const DefaultColor: string := "blue"

  // ---------------------------------------------------------------- notebooks

  /** A `Partial<Notebook>`: the members an update supplies. */
  datatype NotebookPatch = NotebookPatch(
    id: Option<string>,
    name: Option<string>,
    icon: Option<string>,
    color: Option<string>,
    createdAt: Option<int>,
    updatedAt: Option<int>,
    itemCount: Option<int>)

  const NoNotebookChanges: NotebookPatch := NotebookPatch(None, None, None, None, None, None, None)

  /** One member of a spread `{ ...before, ...update }`: the supplied value when the
      update has the member, the old one otherwise. */
  predicate Spread<T(==)>(supplied: Option<T>, before: T, after: T) {
    (supplied.Some? ==> after == supplied.value) && (supplied.None? ==> after == before)
  }

  /** The record `createNotebook` builds: the given name, the icon and color or
      their defaults, both timestamps the clock reading, and no items. */
  function NewNotebook(id: string, name: string, icon: Option<string>, color: Option<string>, now: int): (r: Notebook)
    ensures r.id == id && r.name == name && r.itemCount == 0
    ensures r.icon == (if icon.Some? then icon.value else DefaultIcon)
    ensures r.color == (if color.Some? then color.value else DefaultColor)
    ensures r.createdAt == now && r.updatedAt == now
  {
    Notebook(id, name, GetOr(icon, DefaultIcon), GetOr(color, DefaultColor), now, now, 0)
  }

  /** `{ ...notebook, ...updates, updatedAt: Date.now() }`: each member the update
      supplies replaces the old one, the others stay, and `updatedAt` is the
      clock reading whatever the update says. */
  function PatchNotebook(n: Notebook, u: NotebookPatch, now: int): (r: Notebook)
    ensures r.updatedAt == now
    ensures Spread(u.id, n.id, r.id) && Spread(u.name, n.name, r.name)
    ensures Spread(u.icon, n.icon, r.icon) && Spread(u.color, n.color, r.color)
    ensures Spread(u.createdAt, n.createdAt, r.createdAt) && Spread(u.itemCount, n.itemCount, r.itemCount)
    ensures u == NoNotebookChanges ==> r == n.(updatedAt := now)
  {
    Notebook(GetOr(u.id, n.id), GetOr(u.name, n.name), GetOr(u.icon, n.icon), GetOr(u.color, n.color),
      GetOr(u.createdAt, n.createdAt), now, GetOr(u.itemCount, n.itemCount))
  }

  /** An `updatedAt` in the update has no effect. */
  lemma PatchIgnoresUpdatedAt(n: Notebook, u: NotebookPatch, t: Option<int>, now: int)
    ensures PatchNotebook(n, u.(updatedAt := t), now) == PatchNotebook(n, u, now)
  {
  }

  function NotebookHasId(id: string): Notebook -> bool {
    (n: Notebook) => n.id == id
  }

  function NotebookOtherId(id: string): Notebook -> bool {
    (n: Notebook) => n.id != id
  }

  /** The list `updateNotebook` stores: same length and order, each notebook with
      the id patched, every other one as it was. */
  function UpdateNotebooks(s: seq<Notebook>, id: string, u: NotebookPatch, now: int): (r: seq<Notebook>)
    ensures |r| == |s|
    ensures forall i :: 0 <= i < |s| && s[i].id == id ==> r[i] == PatchNotebook(s[i], u, now)
    ensures forall i :: 0 <= i < |s| && s[i].id != id ==> r[i] == s[i]
    ensures (forall n :: n in s ==> n.id != id) ==> r == s
  {
    UpdateWhere(s, NotebookHasId(id), n => PatchNotebook(n, u, now))
  }

  /** Applying the same update twice stores what applying it once does: a patched
      notebook either no longer has the id or is patched to itself. */
  lemma UpdateNotebooksTwice(s: seq<Notebook>, id: string, u: NotebookPatch, now: int)
    ensures UpdateNotebooks(UpdateNotebooks(s, id, u, now), id, u, now) == UpdateNotebooks(s, id, u, now)
  {
    var once := UpdateNotebooks(s, id, u, now);
    var twice := UpdateNotebooks(once, id, u, now);
    forall i | 0 <= i < |s| ensures twice[i] == once[i] {
      if s[i].id == id && once[i].id == id {
        assert twice[i] == PatchNotebook(once[i], u, now);
      }
    }
  }

  /** The list `deleteNotebook` stores: exactly the notebooks with another id, every
      occurrence of each kept, in their original order. */
  function WithoutNotebook(s: seq<Notebook>, id: string): (r: seq<Notebook>)
    ensures forall n :: n in r <==> n in s && n.id != id
    ensures forall n :: multiset(r)[n] == if n.id != id then multiset(s)[n] else 0
    ensures IsSubsequence(r, s)
  {
    FilterMultiset(s, NotebookOtherId(id));
    FilterIsSubsequence(s, NotebookOtherId(id));
    Filter(s, NotebookOtherId(id))
  }

  /** Deleting twice is deleting once. */
  lemma WithoutNotebookTwice(s: seq<Notebook>, id: string)
    ensures WithoutNotebook(WithoutNotebook(s, id), id) == WithoutNotebook(s, id)
  {
    FilterIdempotent(s, NotebookOtherId(id));
  }

  /** A notebook one item fuller, touched at the clock reading. */
  function Incremented(n: Notebook, now: int): Notebook {
    n.(itemCount := n.itemCount + 1, updatedAt := now)
  }

  /** The list `incrementItemCount` stores: the notebooks with the id count one
      more item and carry the clock reading; every other record stays. */
  function IncrementCount(s: seq<Notebook>, id: string, now: int): (r: seq<Notebook>)
    ensures |r| == |s|
    ensures forall i :: 0 <= i < |s| && s[i].id == id ==>
      r[i] == s[i].(itemCount := s[i].itemCount + 1, updatedAt := now)
    ensures forall i :: 0 <= i < |s| && s[i].id != id ==> r[i] == s[i]
  {
    UpdateWhere(s, NotebookHasId(id), n => Incremented(n, now))
  }

  /** `incrementItemCount(id)` called once per clock reading in `nows`. */
  function IncrementTimes(s: seq<Notebook>, id: string, nows: seq<int>): seq<Notebook>
    decreases |nows|
  {
    if nows == [] then s else IncrementTimes(IncrementCount(s, id, nows[0]), id, nows[1..])
  }

  /** One notebook incremented once per clock reading in `nows`. */
  function IncrementedTimes(n: Notebook, nows: seq<int>): Notebook
    decreases |nows|
  {
    if nows == [] then n else IncrementedTimes(Incremented(n, nows[0]), nows[1..])
  }

  /** Repeated increments act on each notebook separately: the matching ones are
      incremented every time, the others never. */
  lemma {:induction false} IncrementTimesPointwise(s: seq<Notebook>, id: string, nows: seq<int>, i: nat)
    requires i < |s|
    ensures |IncrementTimes(s, id, nows)| == |s|
    ensures IncrementTimes(s, id, nows)[i] == if s[i].id == id then IncrementedTimes(s[i], nows) else s[i]
    decreases |nows|
  {
    if nows != [] {
      IncrementTimesPointwise(IncrementCount(s, id, nows[0]), id, nows[1..], i);
    }
  }

  /** n increments of one notebook add n to its count, leave every other member
      but `updatedAt` alone, and leave `updatedAt` at the last clock reading. */
  lemma {:induction false} IncrementedTimesCount(n: Notebook, nows: seq<int>)
    ensures IncrementedTimes(n, nows) ==
      n.(itemCount := n.itemCount + |nows|, updatedAt := if nows == [] then n.updatedAt else nows[|nows| - 1])
    decreases |nows|
  {
    if nows != [] {
      var tail := nows[1..];
      IncrementedTimesCount(Incremented(n, nows[0]), tail);
      if tail != [] {
        assert tail[|tail| - 1] == nows[|nows| - 1];
      }
    }
  }

  /** n calls of `incrementItemCount(id)` raise the count of each notebook with
      the id by exactly n and change no other notebook. */
  lemma IncrementTimesAddsCount(s: seq<Notebook>, id: string, nows: seq<int>, i: nat)
    requires i < |s|
    ensures |IncrementTimes(s, id, nows)| == |s|
    ensures s[i].id == id ==>
      (IncrementTimes(s, id, nows)[i] ==
        s[i].(itemCount := s[i].itemCount + |nows|, updatedAt := if nows == [] then s[i].updatedAt else nows[|nows| - 1]))
    ensures s[i].id != id ==> IncrementTimes(s, id, nows)[i] == s[i]
  {
    IncrementTimesPointwise(s, id, nows, i);
    IncrementedTimesCount(s[i], nows);
  }

  /** The notebooks list of `useNotebooks`. */
  class NotebookStore {
    var notebooks: seq<Notebook>

    constructor ()
      ensures notebooks == []
    {
      notebooks := [];
    }

    /** `createNotebook(name, icon?, color?)`: appends the new notebook and returns it. */
    method CreateNotebook(name: string, icon: Option<string>, color: Option<string>, id: string, now: int)
      returns (nb: Notebook)
      modifies this
      ensures nb == NewNotebook(id, name, icon, color, now)
      ensures notebooks == old(notebooks) + [nb]
    {
      nb := NewNotebook(id, name, icon, color, now);
      notebooks := notebooks + [nb];
    }

    /** `updateNotebook(id, updates)`. */
    method UpdateNotebook(id: string, u: NotebookPatch, now: int)
      modifies this
      ensures notebooks == UpdateNotebooks(old(notebooks), id, u, now)
    {
      notebooks := UpdateNotebooks(notebooks, id, u, now);
    }

    /** `deleteNotebook(id)`. */
    method DeleteNotebook(id: string)
      modifies this
      ensures notebooks == WithoutNotebook(old(notebooks), id)
    {
      notebooks := WithoutNotebook(notebooks, id);
    }

    /** `incrementItemCount(notebookId)`. */
    method IncrementItemCount(id: string, now: int)
      modifies this
      ensures notebooks == IncrementCount(old(notebooks), id, now)
    {
      notebooks := IncrementCount(notebooks, id, now);
    }
  }

  // ---------------------------------------------------------------- content

  /** What a caller passes to `addContent`: a content item without its id and timestamps. */
  datatype ContentDraft = ContentDraft(
    notebookId: string,
    kind: ContentType,
    title: string,
    content: string,
    metadata: Option<Metadata>)

  /** The caller's part of a stored item. */
  function DraftOf(c: ContentItem): ContentDraft {
    ContentDraft(c.notebookId, c.kind, c.title, c.content, c.metadata)
  }

  /** `{ ...item, id, createdAt: now, updatedAt: now }` */
  function Stamp(d: ContentDraft, id: string, now: int): (r: ContentItem)
    ensures DraftOf(r) == d && r.id == id && r.createdAt == now && r.updatedAt == now
  {
    ContentItem(id, d.notebookId, d.kind, d.title, d.content, d.metadata, now, now)
  }

  /** A `Partial<ContentItem>`. */
  datatype ContentPatch = ContentPatch(
    id: Option<string>,
    notebookId: Option<string>,
    kind: Option<ContentType>,
    title: Option<string>,
    content: Option<string>,
    metadata: Option<Metadata>,
    createdAt: Option<int>,
    updatedAt: Option<int>)

  const NoContentChanges: ContentPatch := ContentPatch(None, None, None, None, None, None, None, None)

  /** `{ ...item, ...updates, updatedAt: Date.now() }`: each member the update
      supplies replaces the old one, the others stay, and `updatedAt` is the
      clock reading. */
  function PatchContent(c: ContentItem, u: ContentPatch, now: int): (r: ContentItem)
    ensures r.updatedAt == now
    ensures Spread(u.id, c.id, r.id) && Spread(u.notebookId, c.notebookId, r.notebookId)
    ensures Spread(u.kind, c.kind, r.kind) && Spread(u.title, c.title, r.title)
    ensures Spread(u.content, c.content, r.content) && Spread(u.createdAt, c.createdAt, r.createdAt)
    ensures u.metadata.Some? ==> r.metadata == u.metadata
    ensures u.metadata.None? ==> r.metadata == c.metadata
    ensures u == NoContentChanges ==> r == c.(updatedAt := now)
  {
    ContentItem(GetOr(u.id, c.id), GetOr(u.notebookId, c.notebookId), GetOr(u.kind, c.kind),
      GetOr(u.title, c.title), GetOr(u.content, c.content),
      if u.metadata.Some? then u.metadata else c.metadata,
      GetOr(u.createdAt, c.createdAt), now)
  }

  function ContentHasId(id: string): ContentItem -> bool {
    (c: ContentItem) => c.id == id
  }

  function ContentOtherId(id: string): ContentItem -> bool {
    (c: ContentItem) => c.id != id
  }

  function InNotebook(notebookId: string): ContentItem -> bool {
    (c: ContentItem) => c.notebookId == notebookId
  }

  /** The list `updateContent` stores. */
  function UpdateContents(s: seq<ContentItem>, id: string, u: ContentPatch, now: int): (r: seq<ContentItem>)
    ensures |r| == |s|
    ensures forall i :: 0 <= i < |s| && s[i].id == id ==> r[i] == PatchContent(s[i], u, now)
    ensures forall i :: 0 <= i < |s| && s[i].id != id ==> r[i] == s[i]
    ensures (forall c :: c in s ==> c.id != id) ==> r == s
  {
    UpdateWhere(s, ContentHasId(id), c => PatchContent(c, u, now))
  }

  /** The list `deleteContent` stores. */
  function WithoutContent(s: seq<ContentItem>, id: string): (r: seq<ContentItem>)
    ensures forall c :: c in r <==> c in s && c.id != id
    ensures forall c :: multiset(r)[c] == if c.id != id then multiset(s)[c] else 0
    ensures IsSubsequence(r, s)
  {
    FilterMultiset(s, ContentOtherId(id));
    FilterIsSubsequence(s, ContentOtherId(id));
    Filter(s, ContentOtherId(id))
  }

  lemma WithoutContentTwice(s: seq<ContentItem>, id: string)
    ensures WithoutContent(WithoutContent(s, id), id) == WithoutContent(s, id)
  {
    FilterIdempotent(s, ContentOtherId(id));
  }

  /** The content list of `useContent`. */
  class ContentStore {
    var content: seq<ContentItem>

    constructor ()
      ensures content == []
    {
      content := [];
    }

    /** `addContent(item)`: the new item goes first. */
    method AddContent(d: ContentDraft, id: string, now: int) returns (item: ContentItem)
      modifies this
      ensures item == Stamp(d, id, now)
      ensures content == [item] + old(content)
    {
      item := Stamp(d, id, now);
      content := [item] + content;
    }

    /** `updateContent(id, updates)`. */
    method UpdateContent(id: string, u: ContentPatch, now: int)
      modifies this
      ensures content == UpdateContents(old(content), id, u, now)
    {
      content := UpdateContents(content, id, u, now);
    }

    /** `deleteContent(id)`. */
    method DeleteContent(id: string)
      modifies this
      ensures content == WithoutContent(old(content), id)
    {
      content := WithoutContent(content, id);
    }

    /** `getContentByNotebook(notebookId)`: exactly the items of that notebook,
        every occurrence, in stored order. */
    function ContentByNotebook(notebookId: string): (r: seq<ContentItem>)
      reads this
      ensures forall c :: c in r <==> c in content && c.notebookId == notebookId
      ensures forall c :: multiset(r)[c] == if c.notebookId == notebookId then multiset(content)[c] else 0
      ensures IsSubsequence(r, content)
    {
      FilterMultiset(content, InNotebook(notebookId));
      FilterIsSubsequence(content, InNotebook(notebookId));
      Filter(content, InNotebook(notebookId))
    }
  }

  /** Adding the drafts one after another leaves them newest first, in front of the old list. */
  method AddEach(store: ContentStore, drafts: seq<ContentDraft>, ids: seq<string>, now: int)
    returns (added: seq<ContentItem>)
    requires |ids| == |drafts|
    modifies store
    ensures |added| == |drafts|
    ensures forall i :: 0 <= i < |drafts| ==> added[i] == Stamp(drafts[i], ids[i], now)
    ensures store.content == Reversed(added) + old(store.content)
  {
    added := [];
    var i := 0;
    while i < |drafts|
      invariant 0 <= i <= |drafts|
      invariant |added| == i
      invariant forall k :: 0 <= k < i ==> added[k] == Stamp(drafts[k], ids[k], now)
      invariant store.content == Reversed(added) + old(store.content)
    {
      var item := store.AddContent(drafts[i], ids[i], now);
      ReversedAppend(added, item);
      added := added + [item];
      i := i + 1;
    }
  }

  /** Adds of A, B and C to an empty store leave [C, B, A]. */
  method AddThree(a: ContentDraft, b: ContentDraft, c: ContentDraft, now: int) returns (stored: seq<ContentItem>)
    ensures |stored| == 3
    ensures DraftOf(stored[0]) == c && DraftOf(stored[1]) == b && DraftOf(stored[2]) == a
    ensures stored[0].id == "c" && stored[1].id == "b" && stored[2].id == "a"
  {
    var store := new ContentStore();
    var _ := store.AddContent(a, "a", now);
    var _ := store.AddContent(b, "b", now);
    var _ := store.AddContent(c, "c", now);
    stored := store.content;
  }

  // ---------------------------------------------------------------- chat

  /** What a caller passes to `addMessage`: a message without its id and timestamp. */
  datatype MessageDraft = MessageDraft(notebookId: string, role: Role, content: string)

  function StampMessage(d: MessageDraft, id: string, now: int): (r: ChatMessage)
    ensures r.notebookId == d.notebookId && r.role == d.role && r.content == d.content
    ensures r.id == id && r.timestamp == now
  {
    ChatMessage(id, d.notebookId, d.role, d.content, now)
  }

  function InChat(notebookId: string): ChatMessage -> bool {
    (m: ChatMessage) => m.notebookId == notebookId
  }

  function OtherChat(notebookId: string): ChatMessage -> bool {
    (m: ChatMessage) => m.notebookId != notebookId
  }

  /** The list `clearChatHistory` stores: the messages of every other notebook,
      every occurrence, in their order. */
  function WithoutChat(s: seq<ChatMessage>, notebookId: string): (r: seq<ChatMessage>)
    ensures forall m :: m in r <==> m in s && m.notebookId != notebookId
    ensures forall m :: multiset(r)[m] == if m.notebookId != notebookId then multiset(s)[m] else 0
    ensures IsSubsequence(r, s)
  {
    FilterMultiset(s, OtherChat(notebookId));
    FilterIsSubsequence(s, OtherChat(notebookId));
    Filter(s, OtherChat(notebookId))
  }

  /** Clearing one notebook's chat leaves every other notebook's conversation as it was. */
  lemma ClearKeepsOtherChats(s: seq<ChatMessage>, notebookId: string, other: string)
    requires other != notebookId
    ensures Filter(WithoutChat(s, notebookId), InChat(other)) == Filter(s, InChat(other))
  {
    FilterOfFilter(s, OtherChat(notebookId), InChat(other));
  }

  /** Clearing leaves nothing of that notebook's conversation. */
  lemma ClearEmptiesChat(s: seq<ChatMessage>, notebookId: string)
    ensures Filter(WithoutChat(s, notebookId), InChat(notebookId)) == []
  {
    FilterDropsAll(WithoutChat(s, notebookId), InChat(notebookId));
  }

  /** Clearing a notebook without messages changes nothing. */
  lemma ClearWithoutMessages(s: seq<ChatMessage>, notebookId: string)
    requires forall m :: m in s ==> m.notebookId != notebookId
    ensures WithoutChat(s, notebookId) == s
  {
    FilterKeepsAll(s, OtherChat(notebookId));
  }

  /** Appending messages keeps each notebook's conversation in insertion order:
      its earlier messages, then its new ones. */
  lemma AppendKeepsChatOrder(s: seq<ChatMessage>, added: seq<ChatMessage>, notebookId: string)
    ensures Filter(s + added, InChat(notebookId)) == Filter(s, InChat(notebookId)) + Filter(added, InChat(notebookId))
  {
    FilterConcat(s, added, InChat(notebookId));
  }

  /** The message list of `useChat`. */
  class ChatStore {
    var messages: seq<ChatMessage>

    constructor ()
      ensures messages == []
    {
      messages := [];
    }

    /** `addMessage(message)`: the new message goes last. */
    method AddMessage(d: MessageDraft, id: string, now: int) returns (m: ChatMessage)
      modifies this
      ensures m == StampMessage(d, id, now)
      ensures messages == old(messages) + [m]
    {
      m := StampMessage(d, id, now);
      messages := messages + [m];
    }

    /** `getMessagesByNotebook(notebookId)`: exactly that notebook's messages,
        every occurrence, in stored order. */
    function MessagesByNotebook(notebookId: string): (r: seq<ChatMessage>)
      reads this
      ensures forall m :: m in r <==> m in messages && m.notebookId == notebookId
      ensures forall m :: multiset(r)[m] == if m.notebookId == notebookId then multiset(messages)[m] else 0
      ensures IsSubsequence(r, messages)
    {
      FilterMultiset(messages, InChat(notebookId));
      FilterIsSubsequence(messages, InChat(notebookId));
      Filter(messages, InChat(notebookId))
    }

    /** `clearChatHistory(notebookId)`. */
    method ClearChatHistory(notebookId: string)
      modifies this
      ensures messages == WithoutChat(old(messages), notebookId)
    {
      messages := WithoutChat(messages, notebookId);
    }
  }
}
