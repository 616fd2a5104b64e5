/** The client's view of a file's messages: the message record, one page of
    the infinite query (as a value and as the cached object), and the
    flattening of pages into one newest-first list. */
module ChatCache {
  import opened Common

  /** A message as the client holds it; `createdAt` is an ISO time string. */
  datatype Message = Message(id: string, createdAt: string, text: string, isUserMessage: bool)

  /** One page of `getFileMessages`, as a value. */
  datatype PageData = PageData(messages: seq<Message>, nextCursor: Option<string>)

  /** One cached page. Its message list is assignable: the optimistic insert
      replaces it in place on the page object that the old cache value, and
      any snapshot taken from it, still reference. */
  class Page {
    var messages: seq<Message>
    const nextCursor: Option<string>

    constructor (messages: seq<Message>, nextCursor: Option<string>)
      ensures this.messages == messages && this.nextCursor == nextCursor
    {
      this.messages := messages;
      this.nextCursor := nextCursor;
    }
  }

  /** The value react-query keeps for an infinite query. */
  datatype InfiniteData = InfiniteData(pages: seq<Page>, pageParams: seq<Option<string>>)

  /** The page objects are pairwise distinct (each was built from its own fetch). */
  ghost predicate DistinctPages(pages: seq<Page>) {
    forall i, j :: 0 <= i < j < |pages| ==> pages[i] != pages[j]
  }

  /** The current contents of a sequence of page objects. */
  function ValueOf(pages: seq<Page>): seq<PageData>
    reads pages
  {
    seq(|pages|, i requires 0 <= i < |pages| reads pages => PageData(pages[i].messages, pages[i].nextCursor))
  }

  /** The current contents of an optional cache value. */
  function CacheValue(d: Option<InfiniteData>): Option<seq<PageData>>
    reads if d.Some? then d.value.pages else []
  {
    if d.Some? then Some(ValueOf(d.value.pages)) else None
  }

  /** `pages.flatMap(page => page.messages)`. */
  function Flatten(pages: seq<PageData>): seq<Message> {
    if pages == [] then [] else pages[0].messages + Flatten(pages[1..])
  }

  /** The number of messages held by all pages. */
  function MessageCount(pages: seq<PageData>): nat {
    if pages == [] then 0 else |pages[0].messages| + MessageCount(pages[1..])
  }

  /** Flattening keeps page order: the pages of `a` come before those of `b`. */
  lemma {:induction false} FlattenAppend(a: seq<PageData>, b: seq<PageData>)
    ensures Flatten(a + b) == Flatten(a) + Flatten(b)
  {
    if a == [] {
      assert a + b == b;
    } else {
      assert (a + b)[0] == a[0];
      assert (a + b)[1..] == a[1..] + b;
      FlattenAppend(a[1..], b);
    }
  }

  /** Flattening drops nothing and adds nothing. */
  lemma {:induction false} FlattenLength(pages: seq<PageData>)
    ensures |Flatten(pages)| == MessageCount(pages)
  {
    if pages != [] {
      FlattenLength(pages[1..]);
    }
  }

  /** A message is in the flat list exactly when some page holds it. */
  lemma {:induction false} FlattenMembership(pages: seq<PageData>, m: Message)
    ensures m in Flatten(pages) <==> exists i :: 0 <= i < |pages| && m in pages[i].messages
  {
    if pages != [] {
      FlattenMembership(pages[1..], m);
      if m in Flatten(pages[1..]) {
        var i :| 0 <= i < |pages[1..]| && m in pages[1..][i].messages;
        assert m in pages[i + 1].messages;
      }
      if exists i :: 0 <= i < |pages| && m in pages[i].messages {
        var i :| 0 <= i < |pages| && m in pages[i].messages;
        if i > 0 {
          assert m in pages[1..][i - 1].messages;
        }
      }
    }
  }

  /** The pages with `m` put at the front of the first page's messages. */
  function PrependToFirst(pages: seq<PageData>, m: Message): seq<PageData>
    requires pages != []
  {
    [pages[0].(messages := [m] + pages[0].messages)] + pages[1..]
  }

  /** Putting a message at the front of the first page puts it at the front
      of the flat list and leaves the rest in place. */
  lemma {:induction false} FlattenAfterPrepend(pages: seq<PageData>, m: Message)
    requires pages != []
    ensures Flatten(PrependToFirst(pages, m)) == [m] + Flatten(pages)
  {
    var p := PrependToFirst(pages, m);
    assert p[0].messages == [m] + pages[0].messages;
    assert p[1..] == pages[1..];
    calc {
      Flatten(p);
      p[0].messages + Flatten(p[1..]);
      [m] + pages[0].messages + Flatten(pages[1..]);
      [m] + (pages[0].messages + Flatten(pages[1..]));
    }
  }
}
