/** The message list: the cached pages flattened into one list, a loading
    pseudo-message put in front of it, and one rendered item per entry with
    its same-sender flag. */
module MessagesView {
  import opened Common
  import opened ChatCache
  import opened ChatUpdates

  /** What an entry shows: a message text or the spinner. */
  datatype Body = Text(text: string) | Spinner

  datatype Entry = Entry(id: string, createdAt: string, body: Body, isUserMessage: bool)

  const LoadingId: string := "loading-message"

  /** The loading pseudo-message, stamped with the render time. */
  function LoadingEntry(now: string): Entry {
    Entry(LoadingId, now, Spinner, false)
  }

  function EntryOf(m: Message): Entry {
    Entry(m.id, m.createdAt, Text(m.text), m.isUserMessage)
  }

  function EntriesOf(msgs: seq<Message>): (r: seq<Entry>)
    ensures |r| == |msgs|
    ensures forall i :: 0 <= i < |msgs| ==> r[i] == EntryOf(msgs[i])
  {
    if msgs == [] then [] else [EntryOf(msgs[0])] + EntriesOf(msgs[1..])
  }

  /** `combinedMessages`: the loading entry (its guard is the constant
      `true`), then the flattened pages, or nothing when there is no data. */
  function Combined(data: Option<seq<PageData>>, now: string): seq<Entry> {
    [LoadingEntry(now)] + EntriesOf(if data.Some? then Flatten(data.value) else [])
  }

  /** The combined list starts with the loading entry and then holds every
      cached message, in page order and in order within each page: one
      entry more than there are cached messages. */
  lemma CombinedShape(data: Option<seq<PageData>>, now: string)
    ensures var c := Combined(data, now);
      && c[0] == LoadingEntry(now)
      && |c| == 1 + (if data.Some? then MessageCount(data.value) else 0)
      && (data.Some? ==> forall i :: 0 <= i < |Flatten(data.value)| ==> c[i + 1] == EntryOf(Flatten(data.value)[i]))
  {
    if data.Some? {
      FlattenLength(data.value);
    }
  }

  /** Every message some cached page holds appears in the combined list. */
  lemma CombinedHoldsEveryMessage(pages: seq<PageData>, now: string, i: nat, m: Message)
    requires i < |pages| && m in pages[i].messages
    ensures EntryOf(m) in Combined(Some(pages), now)
  {
    FlattenMembership(pages, m);
    var flat := Flatten(pages);
    var k :| 0 <= k < |flat| && flat[k] == m;
    assert Combined(Some(pages), now)[k + 1] == EntryOf(m);
  }

  /** `combinedMessages[j]?.isUserMessage`: nothing outside the list. */
  function SenderAt(c: seq<Entry>, j: int): Option<bool> {
    if 0 <= j < |c| then Some(c[j].isUserMessage) else None
  }

  /** `isNextMessageSamePerson` of entry i: its neighbour's flag (read with
      `?.`, so undefined before the first entry) strictly equals its own. */
  function SamePerson(c: seq<Entry>, i: int): bool {
    SenderAt(c, i - 1) == SenderAt(c, i)
  }

  /** On the list, the flag compares the entry with the one before it and
      is false for the first entry. */
  lemma SamePersonMeaning(c: seq<Entry>, i: nat)
    requires i < |c|
    ensures SamePerson(c, i) <==> i > 0 && c[i - 1].isUserMessage == c[i].isUserMessage
  {
  }

  /** The props of one rendered message. */
  datatype Item = Item(isNextMessageSamePerson: bool, message: Entry, key: string)

  /** The body of the `map` callback: the branch for the last entry and the
      one for the others build the same props. */
  function ItemAt(c: seq<Entry>, i: nat): (r: Item)
    requires i < |c|
    ensures r == Item(SamePerson(c, i), c[i], c[i].id)
  {
    if i == |c| - 1 then Item(SamePerson(c, i), c[i], c[i].id)
    else Item(SamePerson(c, i), c[i], c[i].id)
  }

  datatype Rendered = MessageList(items: seq<Item>) | Skeleton | EmptyState

  /** The render branch on the combined list and the query's loading flag. */
  function Render(data: Option<seq<PageData>>, isLoading: bool, now: string): Rendered {
    var c := Combined(data, now);
    if |c| > 0 then MessageList(seq(|c|, i requires 0 <= i < |c| => ItemAt(c, i)))
    else if isLoading then Skeleton
    else EmptyState
  }

  /** The skeleton and the empty state are never shown: the list is always
      rendered, its first item is the spinner (not the user's, no same-sender
      flag), and item i + 1 is the i-th cached message. */
  lemma RenderAlwaysList(data: Option<seq<PageData>>, isLoading: bool, now: string)
    ensures var v := Render(data, isLoading, now);
      && v.MessageList?
      && |v.items| == 1 + (if data.Some? then MessageCount(data.value) else 0)
      && v.items[0] == Item(false, LoadingEntry(now), LoadingId)
      && (data.Some? ==> forall i :: 0 <= i < |Flatten(data.value)| ==>
            v.items[i + 1].message == EntryOf(Flatten(data.value)[i]))
  {
    CombinedShape(data, now);
  }

  /** `getNextPageParam`: the last page's cursor, nothing without pages. */
  function NextPageParam(pages: seq<PageData>): Option<string> {
    if pages == [] then None else pages[|pages| - 1].nextCursor
  }

  /** Neither the optimistic insert nor a chunk update moves the cursor the
      next page is fetched from. */
  lemma NextPageParamKept(pages: seq<PageData>, m: Message, acc: string, now: string)
    requires pages != []
    ensures NextPageParam(PrependToFirst(pages, m)) == NextPageParam(pages)
    ensures NextPageParam(UpsertPages(pages, acc, now)) == NextPageParam(pages)
  {
  }
}
