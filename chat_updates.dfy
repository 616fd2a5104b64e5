/** The cache updaters of the chat provider, as functions on page values:
    the placeholder upsert that runs after every streamed chunk, and the
    running accumulation of the stream. */
module ChatUpdates {
  import opened Common
  import opened ChatCache

  /** The reserved id of the message that shows the answer being streamed. */
  const AiResponseId: string := "ai-response"

  predicate IsPlaceholder(m: Message) { m.id == AiResponseId }

  predicate HasPlaceholder(msgs: seq<Message>) {
    exists i :: 0 <= i < |msgs| && IsPlaceholder(msgs[i])
  }

  function PlaceholderCount(msgs: seq<Message>): nat {
    if msgs == [] then 0 else (if IsPlaceholder(msgs[0]) then 1 else 0) + PlaceholderCount(msgs[1..])
  }

  /** Whether some page, not only the first, holds a placeholder. */
  predicate AnyPageHasPlaceholder(pages: seq<PageData>) {
    exists i :: 0 <= i < |pages| && HasPlaceholder(pages[i].messages)
  }

  /** The placeholder as the first chunk creates it. */
  function Placeholder(createdAt: string, acc: string): Message {
    Message(AiResponseId, createdAt, acc, false)
  }

  /** Gives every placeholder the text `acc`, keeping its other fields and
      every other message. */
  function SetPlaceholderText(msgs: seq<Message>, acc: string): (r: seq<Message>)
    ensures |r| == |msgs|
    ensures forall i :: 0 <= i < |msgs| ==>
              r[i] == (if IsPlaceholder(msgs[i]) then msgs[i].(text := acc) else msgs[i])
  {
    if msgs == [] then []
    else [if IsPlaceholder(msgs[0]) then msgs[0].(text := acc) else msgs[0]]
         + SetPlaceholderText(msgs[1..], acc)
  }

  /** The new message list of the first page after a chunk. */
  function UpsertFirstPage(msgs: seq<Message>, created: bool, acc: string, now: string): seq<Message> {
    if created then SetPlaceholderText(msgs, acc) else [Placeholder(now, acc)] + msgs
  }

  /** The per-chunk updater on a cached value: only the first page gets a
      new message list; every page keeps its cursor. */
  function UpsertPages(pages: seq<PageData>, acc: string, now: string): (r: seq<PageData>)
    ensures |r| == |pages|
    ensures forall i :: 1 <= i < |pages| ==> r[i] == pages[i]
    ensures forall i :: 0 <= i < |pages| ==> r[i].nextCursor == pages[i].nextCursor
  {
    if pages == [] then []
    else [PageData(UpsertFirstPage(pages[0].messages, AnyPageHasPlaceholder(pages), acc, now), pages[0].nextCursor)]
         + pages[1..]
  }

  /** The per-chunk updater including its branch for an absent cache entry,
      which yields an empty page list instead of failing. */
  function ChunkUpdate(data: Option<seq<PageData>>, acc: string, now: string): (r: Option<seq<PageData>>)
    ensures r.Some?
    ensures data.None? ==> r == Some([])
    ensures data.Some? ==> |r.value| == |data.value|
  {
    match data
    case None => Some([])
    case Some(pages) => Some(UpsertPages(pages, acc, now))
  }

  /** `accResponse` once every chunk of `chunks` has been appended. */
  function Concat(chunks: seq<string>): string {
    if chunks == [] then "" else Concat(chunks[..|chunks| - 1]) + chunks[|chunks| - 1]
  }

  /** The cache after one updater call per read, the k-th with the
      concatenation of the first k decoded values. */
  function ApplyReads(data: Option<seq<PageData>>, values: seq<string>, now: string): Option<seq<PageData>> {
    if values == [] then data
    else ChunkUpdate(ApplyReads(data, values[..|values| - 1], now), Concat(values), now)
  }

  lemma {:induction false} PlaceholderCountIff(msgs: seq<Message>)
    ensures PlaceholderCount(msgs) > 0 <==> HasPlaceholder(msgs)
  {
    if msgs != [] {
      PlaceholderCountIff(msgs[1..]);
      if HasPlaceholder(msgs[1..]) {
        var i :| 0 <= i < |msgs[1..]| && IsPlaceholder(msgs[1..][i]);
        assert IsPlaceholder(msgs[i + 1]);
      }
      if HasPlaceholder(msgs) && !IsPlaceholder(msgs[0]) {
        var i :| 0 <= i < |msgs| && IsPlaceholder(msgs[i]);
        assert IsPlaceholder(msgs[1..][i - 1]);
      }
    }
  }

  /** Rewriting placeholder texts neither adds nor removes placeholders. */
  lemma {:induction false} PlaceholderCountSetText(msgs: seq<Message>, acc: string)
    ensures PlaceholderCount(SetPlaceholderText(msgs, acc)) == PlaceholderCount(msgs)
  {
    if msgs != [] {
      var r := SetPlaceholderText(msgs, acc);
      assert r[1..] == SetPlaceholderText(msgs[1..], acc);
      PlaceholderCountSetText(msgs[1..], acc);
    }
  }

  /** The upsert rule: with no placeholder anywhere, the first page gains
      exactly one, at its front, holding `acc`; otherwise every placeholder
      of the first page takes the text `acc` and keeps its other fields,
      and no message is added. In both cases the other messages of the
      first page stay where they were. */
  lemma UpsertRule(pages: seq<PageData>, acc: string, now: string)
    requires pages != []
    ensures var first := UpsertPages(pages, acc, now)[0].messages;
      && (!AnyPageHasPlaceholder(pages) ==>
            && first == [Placeholder(now, acc)] + pages[0].messages
            && PlaceholderCount(first) == 1)
      && (AnyPageHasPlaceholder(pages) ==>
            && |first| == |pages[0].messages|
            && PlaceholderCount(first) == PlaceholderCount(pages[0].messages)
            && forall i :: 0 <= i < |first| ==>
                 (IsPlaceholder(pages[0].messages[i]) ==> first[i] == pages[0].messages[i].(text := acc))
                 && (!IsPlaceholder(pages[0].messages[i]) ==> first[i] == pages[0].messages[i]))
  {
    var first := UpsertPages(pages, acc, now)[0].messages;
    if !AnyPageHasPlaceholder(pages) {
      assert !HasPlaceholder(pages[0].messages);
      PlaceholderCountIff(pages[0].messages);
      assert first[1..] == pages[0].messages;
    } else {
      PlaceholderCountSetText(pages[0].messages, acc);
    }
  }

  /** Re-applying the same accumulator changes nothing, whatever the clock
      says the second time. */
  lemma UpsertIdempotent(data: Option<seq<PageData>>, acc: string, now: string, later: string)
    ensures ChunkUpdate(ChunkUpdate(data, acc, now), acc, later) == ChunkUpdate(data, acc, now)
  {
    if data.Some? && data.value != [] {
      var pages := data.value;
      var once := UpsertPages(pages, acc, now);
      var m := once[0].messages;
      assert AnyPageHasPlaceholder(once) by {
        if AnyPageHasPlaceholder(pages) {
          var i :| 0 <= i < |pages| && HasPlaceholder(pages[i].messages);
          var j :| 0 <= j < |pages[i].messages| && IsPlaceholder(pages[i].messages[j]);
          if i == 0 {
            assert IsPlaceholder(m[j]);
          } else {
            assert HasPlaceholder(once[i].messages);
          }
        } else {
          assert IsPlaceholder(m[0]);
        }
      }
      var twice := UpsertPages(once, acc, later);
      assert twice[0].messages == m;
      assert twice == once;
    }
  }

  /** The cache after a placeholder holding `acc` was put on top of `pages`. */
  function WithPlaceholder(pages: seq<PageData>, now: string, acc: string): seq<PageData>
    requires pages != []
  {
    PrependToFirst(pages, Placeholder(now, acc))
  }

  /** Putting a message that is not a placeholder on the first page keeps
      the cache free of placeholders. */
  lemma PrependKeepsNoPlaceholder(pages: seq<PageData>, m: Message)
    requires pages != [] && !IsPlaceholder(m) && !AnyPageHasPlaceholder(pages)
    ensures !AnyPageHasPlaceholder(PrependToFirst(pages, m))
  {
    var p := PrependToFirst(pages, m);
    forall i | 0 <= i < |p| ensures !HasPlaceholder(p[i].messages) {
      if i == 0 {
        assert !HasPlaceholder(pages[0].messages);
        forall j | 0 <= j < |p[0].messages| ensures !IsPlaceholder(p[0].messages[j]) {
          if j > 0 {
            assert p[0].messages[j] == pages[0].messages[j - 1];
          }
        }
      } else {
        assert p[i] == pages[i];
        assert !HasPlaceholder(pages[i].messages);
      }
    }
  }

  /** Once the placeholder sits on top of a cache that had none, a later
      chunk only rewrites its text. */
  lemma UpsertOnWithPlaceholder(pages: seq<PageData>, now: string, acc: string, next: string, later: string)
    requires pages != [] && !AnyPageHasPlaceholder(pages)
    ensures UpsertPages(WithPlaceholder(pages, now, acc), next, later) == WithPlaceholder(pages, now, next)
  {
    var w := WithPlaceholder(pages, now, acc);
    assert IsPlaceholder(w[0].messages[0]);
    assert AnyPageHasPlaceholder(w) by { assert HasPlaceholder(w[0].messages); }
    var s := SetPlaceholderText(w[0].messages, next);
    assert !HasPlaceholder(pages[0].messages);
    assert s == [Placeholder(now, next)] + pages[0].messages;
  }

  /** Starting from a cache with pages and no placeholder, any non-empty
      sequence of reads leaves exactly one placeholder, at the front of the
      first page, holding everything read so far; all other messages and all
      other pages are as before. */
  lemma {:induction false} StreamLeavesOnePlaceholder(pages: seq<PageData>, values: seq<string>, now: string)
    requires pages != [] && !AnyPageHasPlaceholder(pages) && values != []
    ensures ApplyReads(Some(pages), values, now) == Some(WithPlaceholder(pages, now, Concat(values)))
    ensures PlaceholderCount(WithPlaceholder(pages, now, Concat(values))[0].messages) == 1
  {
    var n := |values|;
    if n == 1 {
      assert values[..n - 1] == [];
      UpsertRule(pages, Concat(values), now);
    } else {
      StreamLeavesOnePlaceholder(pages, values[..n - 1], now);
      UpsertOnWithPlaceholder(pages, now, Concat(values[..n - 1]), Concat(values), now);
    }
    UpsertRule(pages, Concat(values), now);
  }

  /** A trailing empty read (the `done` read decodes to "") adds nothing to
      the accumulator. */
  lemma ConcatEmptyLast(chunks: seq<string>)
    ensures Concat(chunks + [""]) == Concat(chunks)
  {
    assert (chunks + [""])[..|chunks|] == chunks;
  }
}
