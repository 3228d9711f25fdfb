/** The records the application stores and passes around (lib/types.ts). Ids are
    strings from an id generator and timestamps are milliseconds from the clock;
    both are supplied by the caller. */
module Types {

  datatype Option<T> = None | Some(value: T)

  function GetOr<T>(o: Option<T>, default: T): T {
    match o
    case Some(v) => v
    case None => default
  }

  /** JavaScript truthiness of an optional string: present and non-empty. */
  predicate Truthy(o: Option<string>) {
    o.Some? && o.value != ""
  }

  /** ContentItem's `type` field. */
  datatype ContentType = Text | Image | Script | Link

  /** The string the source stores and displays for a content type. */
  function TypeName(t: ContentType): string {
    match t
    case Text => "text"
    case Image => "image"
    case Script => "script"
    case Link => "link"
  }

  datatype Notebook = Notebook(
    id: string,
    name: string,
    icon: string,
    color: string,
    createdAt: int,
    updatedAt: int,
    itemCount: int)

  datatype Metadata = Metadata(
    url: Option<string>,
    language: Option<string>,
    tags: Option<seq<string>>,
    source: Option<string>)

  datatype ContentItem = ContentItem(
    id: string,
    notebookId: string,
    kind: ContentType,
    title: string,
    content: string,
    metadata: Option<Metadata>,
    createdAt: int,
    updatedAt: int)

  datatype Role = User | Assistant

  datatype ChatMessage = ChatMessage(
    id: string,
    notebookId: string,
    role: Role,
    content: string,
    timestamp: int)

  /** ClipboardData's `type` field: 'text', 'image' or 'mixed'. */
  datatype ClipboardKind = ClipText | ClipImage | ClipMixed

  /** What one clipboard read produced; `image` is a data URL. */
  datatype ClipboardData = ClipboardData(
    text: Option<string>,
    html: Option<string>,
    image: Option<string>,
    kind: ClipboardKind)

  /** The last notification a component raised (the model's stand-in for a toast). */
  datatype Toast = NoToast | SuccessToast(message: string) | ErrorToast(message: string)
}
