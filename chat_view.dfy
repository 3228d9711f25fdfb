/** The chat panel of one notebook (components/ChatView.tsx): the question is
    stored first, the notebook's items are rendered into a context text, the
    language model is asked, and its answer is stored after the question. The
    model is an oracle: a function from the prompt to its reply. */
module ChatView {
  import opened Types
  import opened Strings
  import opened Seqs
  import opened Data

  /** What the language model call produced: the answer text, or a rejected promise. */
  datatype LlmReply = Answer(text: string) | LlmFailed

  const ErrorMessage := "Failed to get AI response. Please try again."
  const ClearedMessage := "Chat history cleared"

  /** The context block of one item: its title, type and content, then a rule line. */
  function Block(item: ContentItem): string {
    "Title: " + item.title + "\nType: " + TypeName(item.kind) + "\nContent: " + item.content + "\n---"
  }

  /** A block names the item's title, type and content, and is never empty. */
  lemma BlockMentions(item: ContentItem)
    ensures Block(item) != ""
    ensures Contains(Block(item), item.title)
    ensures Contains(Block(item), TypeName(item.kind))
    ensures Contains(Block(item), item.content)
  {
    ContainsAlternate("Title: ", item.title, "\nType: ", TypeName(item.kind), "\nContent: ", item.content, "\n---");
  }

  /** `contextText`: the blocks of the items in listing order, joined by newlines. */
  function ContextText(items: seq<ContentItem>): string {
    Join(Map(items, Block), "\n")
  }

  /** The context text is empty exactly when the notebook has no items. */
  lemma ContextEmptyIff(items: seq<ContentItem>)
    ensures ContextText(items) == "" <==> items == []
  {
    if items != [] {
      var blocks := Map(items, Block);
      JoinPieceAt(blocks, "\n", 0);
      BlockMentions(items[0]);
      assert blocks[0] == Block(items[0]);
    }
  }

  /** Item k's block appears whole at its offset in the context text. */
  lemma ContextBlockAt(items: seq<ContentItem>, k: nat)
    requires k < |items|
    ensures JoinOffset(Map(items, Block), "\n", k) <= |ContextText(items)|
    ensures OccursAt(ContextText(items), Block(items[k]), JoinOffset(Map(items, Block), "\n", k))
  {
    MappedPieceAt(items, Block, "\n", k);
  }

  /** The next item's block starts right after item k's block and a newline, so
      the blocks follow the listing order without overlapping. */
  lemma ContextBlocksAdjacent(items: seq<ContentItem>, k: nat)
    requires k + 1 < |items|
    ensures var c := ContextText(items);
      var e := JoinOffset(Map(items, Block), "\n", k) + |Block(items[k])|;
      e + 1 <= |c| && c[e..e + 1] == "\n" && JoinOffset(Map(items, Block), "\n", k + 1) == e + 1
  {
    MappedSeparatorAfter(items, Block, "\n", k);
  }

  /** `Join` over a mapped sequence: piece k is the image of item k, at its offset. */
  lemma MappedPieceAt<T>(items: seq<T>, f: T -> string, sep: string, k: nat)
    requires k < |items|
    ensures JoinOffset(Map(items, f), sep, k) <= |Join(Map(items, f), sep)|
    ensures OccursAt(Join(Map(items, f), sep), f(items[k]), JoinOffset(Map(items, f), sep, k))
  {
    var pieces := Map(items, f);
    assert pieces[k] == f(items[k]);
    JoinPieceOccurs(pieces, sep, k);
  }

  /** `Join` over a mapped sequence: the separator follows piece k, and then piece k + 1 starts. */
  lemma MappedSeparatorAfter<T>(items: seq<T>, f: T -> string, sep: string, k: nat)
    requires k + 1 < |items|
    ensures var j := Join(Map(items, f), sep);
      var e := JoinOffset(Map(items, f), sep, k) + |f(items[k])|;
      e + |sep| <= |j| && j[e..e + |sep|] == sep && JoinOffset(Map(items, f), sep, k + 1) == e + |sep|
  {
    var pieces := Map(items, f);
    assert pieces[k] == f(items[k]);
    JoinSeparatorAfter(pieces, sep, k);
    JoinOffsetStep(pieces, sep, k);
  }

  /** Every item of the notebook is in the context text. */
  lemma ContextMentionsEveryItem(items: seq<ContentItem>, k: nat)
    requires k < |items|
    ensures Contains(ContextText(items), Block(items[k]))
  {
    MappedPieceContained(items, Block, "\n", k);
  }

  /** The image of every item occurs in the joined images. */
  lemma MappedPieceContained<T>(items: seq<T>, f: T -> string, sep: string, k: nat)
    requires k < |items|
    ensures Contains(Join(Map(items, f), sep), f(items[k]))
  {
    MappedPieceAt(items, f, sep, k);
  }

  const PromptIntro := "You are an AI assistant helping with a knowledge base called \""
  const PromptContent := "\". \n\nThe user has the following content in this notebook:\n"
  const PromptQuestion := "\n\nUser question: "
  const PromptClosing := "\n\nPlease provide a helpful response based on the content in this notebook. If the question relates to specific content, reference it. If there's no relevant content, suggest ways the user could add relevant information to help answer their question."

  /** The prompt sent to the model, with the tagged template's interpolations
      written out as concatenation. */
  function Prompt(name: string, contextText: string, question: string): string {
    PromptIntro + name + PromptContent + contextText + PromptQuestion + question + PromptClosing
  }

  /** The prompt carries the notebook's name, its context text and the question. */
  lemma PromptMentions(name: string, contextText: string, question: string)
    ensures Contains(Prompt(name, contextText, question), name)
    ensures Contains(Prompt(name, contextText, question), contextText)
    ensures Contains(Prompt(name, contextText, question), question)
  {
    ContainsAlternate(PromptIntro, name, PromptContent, contextText, PromptQuestion, question, PromptClosing);
  }

  /** Submit is possible when the input has something besides whitespace and no
      request is in flight. */
  predicate CanSend(input: string, isLoading: bool) {
    !AllWhitespace(input) && !isLoading
  }

  /** The guard agrees with the source's `!input.trim() || isLoading` test. */
  lemma CanSendTrims(input: string, isLoading: bool)
    ensures CanSend(input, isLoading) <==> Trim(input) != "" && !isLoading
  {
  }

  /** The messages one submit stores: the question, then the answer when there is one. */
  function Exchange(notebookId: string, question: string, reply: LlmReply,
                    userId: string, assistantId: string, now: int, replyAt: int): (r: seq<ChatMessage>)
    ensures 1 <= |r| <= 2 && (|r| == 2 <==> reply.Answer?)
    ensures r[0] == ChatMessage(userId, notebookId, User, question, now)
    ensures reply.Answer? ==> r[1] == ChatMessage(assistantId, notebookId, Assistant, reply.text, replyAt)
    ensures forall m :: m in r ==> m.notebookId == notebookId
  {
    var user := StampMessage(MessageDraft(notebookId, User, question), userId, now);
    if reply.Answer? then
      [user, StampMessage(MessageDraft(notebookId, Assistant, reply.text), assistantId, replyAt)]
    else [user]
  }

  /** A submit extends this notebook's conversation by the exchange, at its end,
      and leaves every other notebook's conversation as it was. */
  lemma ExchangeExtendsConversation(s: seq<ChatMessage>, notebookId: string, question: string, reply: LlmReply,
                                    userId: string, assistantId: string, now: int, replyAt: int, other: string)
    requires other != notebookId
    ensures var x := Exchange(notebookId, question, reply, userId, assistantId, now, replyAt);
      Filter(s + x, InChat(notebookId)) == Filter(s, InChat(notebookId)) + x
    ensures var x := Exchange(notebookId, question, reply, userId, assistantId, now, replyAt);
      Filter(s + x, InChat(other)) == Filter(s, InChat(other))
  {
    var x := Exchange(notebookId, question, reply, userId, assistantId, now, replyAt);
    AppendKeepsChatOrder(s, x, notebookId);
    AppendKeepsChatOrder(s, x, other);
    FilterKeepsAll(x, InChat(notebookId));
    FilterDropsAll(x, InChat(other));
  }

  /** The state of one mounted ChatView. */
  class ChatSession {
    const notebook: Notebook
    const chat: ChatStore
    const contents: ContentStore
    var input: string
    var isLoading: bool
    var toast: Toast

    constructor (notebook: Notebook, chat: ChatStore, contents: ContentStore)
      ensures this.notebook == notebook && this.chat == chat && this.contents == contents
      ensures input == "" && !isLoading && toast == NoToast
    {
      this.notebook := notebook;
      this.chat := chat;
      this.contents := contents;
      input := "";
      isLoading := false;
      toast := NoToast;
    }

    /** `handleSubmit()`. Unless the trimmed input is empty or a request is in
        flight, it clears the input, stores the trimmed question, asks the model
        with the notebook's context, stores the answer after the question or
        reports the failure, and ends with no request in flight. */
    method HandleSubmit(llm: string -> LlmReply, userId: string, assistantId: string, now: int, replyAt: int)
      returns (sent: bool)
      modifies this`input, this`isLoading, this`toast, chat
      ensures sent == old(CanSend(input, isLoading))
      ensures !sent ==>
        input == old(input) && isLoading == old(isLoading) && toast == old(toast)
        && chat.messages == old(chat.messages)
      ensures sent ==>
        var question := Trim(old(input));
        var reply := llm(Prompt(notebook.name, old(ContextText(contents.ContentByNotebook(notebook.id))), question));
        chat.messages == old(chat.messages) + Exchange(notebook.id, question, reply, userId, assistantId, now, replyAt)
        && toast == (if reply.Answer? then old(toast) else ErrorToast(ErrorMessage))
      ensures sent ==> input == "" && !isLoading
    {
      if !CanSend(input, isLoading) {
        return false;
      }
      var contextText := ContextText(contents.ContentByNotebook(notebook.id));
      Send(Trim(input), contextText, llm, userId, assistantId, now, replyAt);
      sent := true;
    }

    /** The accepted submit: clear the input, store the question, ask the model,
        store its answer or report the failure, and end the request. */
    method Send(question: string, contextText: string, llm: string -> LlmReply,
                userId: string, assistantId: string, now: int, replyAt: int)
      modifies this`input, this`isLoading, this`toast, chat
      ensures var reply := llm(Prompt(notebook.name, contextText, question));
        chat.messages == old(chat.messages) + Exchange(notebook.id, question, reply, userId, assistantId, now, replyAt)
        && toast == (if reply.Answer? then old(toast) else ErrorToast(ErrorMessage))
      ensures input == "" && !isLoading
    {
      input := "";
      isLoading := true;
      var _ := chat.AddMessage(MessageDraft(notebook.id, User, question), userId, now);
      var reply := llm(Prompt(notebook.name, contextText, question));
      if reply.Answer? {
        var _ := chat.AddMessage(MessageDraft(notebook.id, Assistant, reply.text), assistantId, replyAt);
      } else {
        toast := ErrorToast(ErrorMessage);
      }
      isLoading := false;
    }

    /** `handleClearChat()`: this notebook's messages go; the rest stay. */
    method HandleClearChat()
      modifies chat, this`toast
      ensures chat.messages == WithoutChat(old(chat.messages), notebook.id)
      ensures toast == SuccessToast(ClearedMessage)
    {
      chat.ClearChatHistory(notebook.id);
      toast := SuccessToast(ClearedMessage);
    }
  }
}
