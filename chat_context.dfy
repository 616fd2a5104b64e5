/** The chat provider of one file: the input text, the loading flag, the
    backed-up input, and the three query-cache entries it touches, with the
    send lifecycle (optimistic insert, streamed answer, rollback, settle). */
module ChatContext {
  import opened Common
  import opened ChatCache
  import opened ChatUpdates

  /** The observable steps of the provider, in the order it takes them.
      Cancelling refetches and invalidating the query are library calls
      with no content of their own here. */
  datatype Step =
    | BackUpInput(text: string)
    | ClearInput
    | CancelRefetch
    | ReadSnapshot
    | WriteInfinite
    | SetLoading(on: bool)
    | Toast
    | RestoreInput
    | WriteRollback
    | Invalidate(fileId: string)

  /** A response body: the decoded chunks in the order they arrive, and
      whether the read after the last chunk rejects instead of reporting
      `done`. */
  datatype Stream = Stream(chunks: seq<string>, failsAfter: bool)

  /** How the POST ended: it threw or answered with a non-ok status, or it
      resolved with a body that may be null. */
  datatype SendOutcome = Rejected | Resolved(body: Option<Stream>)

  /** The optimistic updater reads `newPages[0]!.messages` and throws when
      the cached value has no page. */
  datatype MutateError = MissingFirstPage

  /** The decoded value of every read the loop performs: each chunk, then
      the final `done` read whose undefined value decodes to "" (absent
      when a read rejects first). */
  function ReadValues(s: Stream): (r: seq<string>)
    ensures |r| == |s.chunks| + (if s.failsAfter then 0 else 1)
    ensures r[..|s.chunks|] == s.chunks
  {
    if s.failsAfter then s.chunks else s.chunks + [""]
  }

  /** The user message the optimistic insert creates. */
  function Optimistic(id: string, createdAt: string, text: string): Message {
    Message(id, createdAt, text, true)
  }

  /** One cache write per read. */
  function Writes(n: nat): (r: seq<Step>)
    ensures |r| == n && forall i :: 0 <= i < n ==> r[i] == WriteInfinite
  {
    if n == 0 then [] else Writes(n - 1) + [WriteInfinite]
  }

  /** Whether a send ends in `onError`: the optimistic updater threw, the
      POST failed, or a read of the body rejected. */
  predicate SendFails(cached: Option<seq<PageData>>, outcome: SendOutcome) {
    || (cached.Some? && cached.value == [])
    || outcome.Rejected?
    || (outcome.Resolved? && outcome.body.Some? && outcome.body.value.failsAfter)
  }

  /** A body read to its end leaves exactly one placeholder on top of the
      first page, whose text is the whole answer: the final `done` read adds
      nothing to it. */
  lemma FullStreamAnswer(pages: seq<PageData>, body: Stream, now: string)
    requires pages != [] && !AnyPageHasPlaceholder(pages) && !body.failsAfter
    ensures ApplyReads(Some(pages), ReadValues(body), now) == Some(WithPlaceholder(pages, now, Concat(body.chunks)))
    ensures PlaceholderCount(WithPlaceholder(pages, now, Concat(body.chunks))[0].messages) == 1
  {
    StreamLeavesOnePlaceholder(pages, ReadValues(body), now);
    ConcatEmptyLast(body.chunks);
  }

  /** One more read: the accumulator grows by the read value and the cache
      takes one more updater call with it. */
  lemma ReadStep(data: Option<seq<PageData>>, values: seq<string>, i: nat, now: string)
    requires i < |values|
    ensures Concat(values[..i + 1]) == Concat(values[..i]) + values[i]
    ensures ApplyReads(data, values[..i + 1], now)
            == ChunkUpdate(ApplyReads(data, values[..i], now), Concat(values[..i]) + values[i], now)
  {
    assert values[..i + 1][..i] == values[..i];
  }

  class ChatProvider {
    const fileId: string
    /** The text in the chat input. */
    var message: string
    var isLoading: bool
    /** The ref that keeps the sent text for restoring it on error. */
    var backupMessage: string
    /** The cache entry of `getFileMessages` under `{fileId, limit}`. */
    var infinite: Option<InfiniteData>
    /** The entry that `getInfiniteData()` with no input reads. */
    var unkeyed: Option<InfiniteData>
    /** The entry under `{fileId}` that the rollback writes. */
    var rollback: Option<seq<Message>>
    var trace: seq<Step>

    ghost predicate Valid()
      reads this
    {
      infinite.Some? ==> DistinctPages(infinite.value.pages)
    }

    constructor (fileId: string, infinite: Option<InfiniteData>, unkeyed: Option<InfiniteData>)
      requires infinite.Some? ==> DistinctPages(infinite.value.pages)
      ensures Valid()
      ensures this.fileId == fileId && this.infinite == infinite && this.unkeyed == unkeyed
      ensures message == "" && !isLoading && backupMessage == "" && rollback == None && trace == []
    {
      this.fileId := fileId;
      this.infinite := infinite;
      this.unkeyed := unkeyed;
      message := "";
      isLoading := false;
      backupMessage := "";
      rollback := None;
      trace := [];
    }

    /** The page objects of the live entry. */
    function Pages(): seq<Page>
      reads this
    {
      if infinite.Some? then infinite.value.pages else []
    }

    /** The one page object the optimistic insert assigns to. */
    function FirstPage(): set<Page>
      reads this
    {
      if infinite.Some? && |infinite.value.pages| > 0 then {infinite.value.pages[0]} else {}
    }

    /** The current contents of the live entry. */
    function Cached(): Option<seq<PageData>>
      reads this, Pages()
    {
      CacheValue(infinite)
    }

    /** `previousMessage?.pages.flatMap(page => page.messages) ?? []`,
        evaluated on the current contents of the snapshot's pages. */
    function SnapshotList(): seq<Message>
      reads this, if unkeyed.Some? then unkeyed.value.pages else []
    {
      if unkeyed.Some? then Flatten(ValueOf(unkeyed.value.pages)) else []
    }

    /** The input's change handler. */
    method HandleInputChange(value: string)
      modifies this`message
      ensures message == value
    {
      message := value;
    }

    /** The optimistic updater passed to `setInfiniteData`: no cached
        value becomes an empty page list; otherwise the first page object's
        message list is assigned `[message, ...messages]` in place and the
        value keeps its page objects and page parameters. A value with no
        page makes the updater throw. */
    method InsertOptimistic(m: Message) returns (ok: bool)
      requires Valid()
      modifies this`infinite, FirstPage()
      ensures Valid()
      ensures ok == (old(Cached()) != Some([]))
      ensures old(infinite).None? ==> infinite == Some(InfiniteData([], []))
      ensures old(infinite).Some? ==> infinite == old(infinite)
      ensures old(Cached()).Some? && old(Cached()).value != [] ==>
                Cached() == Some(PrependToFirst(old(Cached()).value, m))
    {
      match infinite {
        case None =>
          infinite := Some(InfiniteData([], []));
          ok := true;
        case Some(data) =>
          if |data.pages| == 0 {
            assert ValueOf(data.pages) == [];
            return false;
          }
          ghost var before := ValueOf(data.pages);
          var latestPage := data.pages[0];
          latestPage.messages := [m] + latestPage.messages;
          infinite := Some(InfiniteData(data.pages, data.pageParams));
          assert ValueOf(data.pages) == PrependToFirst(before, m);
          ok := true;
      }
    }

    /** `onMutate`: back up and clear the input, cancel refetches, take the
        snapshot, run the optimistic updater, then set loading. The value it
        returns, the rollback list, is the snapshot flattened after the
        updater assigned the first page: when the snapshot is the live
        entry, that list already starts with the optimistic message. */
    method OnMutate(text: string, newId: string, now: string) returns (r: Result<seq<Message>, MutateError>)
      requires Valid()
      modifies this, FirstPage()
      ensures Valid()
      ensures unkeyed == old(unkeyed) && rollback == old(rollback)
      ensures backupMessage == text && message == ""
      ensures old(infinite).None? ==> infinite == Some(InfiniteData([], []))
      ensures old(infinite).Some? ==> infinite == old(infinite)
      ensures old(Cached()) == Some([]) ==>
                && r == Err(MissingFirstPage) && isLoading == old(isLoading)
                && trace == old(trace) + [BackUpInput(text), ClearInput, CancelRefetch, ReadSnapshot]
      ensures old(Cached()) != Some([]) ==>
                && r == Ok(SnapshotList()) && isLoading
                && trace == old(trace) + [BackUpInput(text), ClearInput, CancelRefetch, ReadSnapshot,
                                          WriteInfinite, SetLoading(true)]
      ensures old(Cached()).Some? && old(Cached()).value != [] ==>
                Cached() == Some(PrependToFirst(old(Cached()).value, Optimistic(newId, now, text)))
      ensures old(Cached()).Some? && old(Cached()).value != [] && old(unkeyed) == old(infinite) ==>
                r == Ok([Optimistic(newId, now, text)] + Flatten(old(Cached()).value))
    {
      ghost var before := Cached();
      backupMessage := text;
      message := "";
      var previous := unkeyed;
      trace := trace + [BackUpInput(text), ClearInput, CancelRefetch, ReadSnapshot];
      var ok := InsertOptimistic(Optimistic(newId, now, text));
      if !ok {
        return Err(MissingFirstPage);
      }
      isLoading := true;
      trace := trace + [WriteInfinite, SetLoading(true)];
      r := Ok(if previous.Some? then Flatten(ValueOf(previous.value.pages)) else []);
      if before.Some? && before.value != [] && previous == old(infinite) {
        FlattenAfterPrepend(before.value, Optimistic(newId, now, text));
      }
    }

    /** One `setInfiniteData` call of the stream loop: the cached value
        becomes the per-chunk updater's result. The first page is replaced
        by a new page object (`{...page, messages}`); the others are kept. */
    method UpsertPlaceholder(acc: string, now: string)
      requires Valid()
      modifies this`infinite, this`trace
      ensures Valid()
      ensures Cached() == ChunkUpdate(old(Cached()), acc, now)
      ensures infinite.Some?
      ensures infinite.value.pageParams == if old(infinite).Some? then old(infinite).value.pageParams else []
      ensures trace == old(trace) + [WriteInfinite]
    {
      match infinite {
        case None =>
          infinite := Some(InfiniteData([], []));
          assert ValueOf([]) == [];
        case Some(data) =>
          var pages := data.pages;
          if |pages| == 0 {
            assert ValueOf(pages) == [];
          } else {
            var created := AnyPageHasPlaceholder(ValueOf(pages));
            var first := pages[0];
            var newFirst := new Page(UpsertFirstPage(first.messages, created, acc, now), first.nextCursor);
            var updated := seq(|pages|, i requires 0 <= i < |pages| => if pages[i] == pages[0] then newFirst else pages[i]);
            assert forall i :: 1 <= i < |pages| ==> updated[i] == pages[i];
            infinite := Some(InfiniteData(updated, data.pageParams));
            assert ValueOf(updated) == UpsertPages(old(ValueOf(pages)), acc, now);
          }
      }
      trace := trace + [WriteInfinite];
    }

    /** `onSuccess`: clear loading; with no body raise a toast and stop;
        otherwise read until `done`, appending each decoded value to the
        accumulator and writing the cache once per read, the final `done`
        read included. Returns whether a read rejected. */
    method OnSuccess(body: Option<Stream>, now: string) returns (threw: bool)
      requires Valid()
      modifies this`isLoading, this`infinite, this`trace
      ensures Valid()
      ensures !isLoading
      ensures body.None? ==> !threw && infinite == old(infinite) && trace == old(trace) + [SetLoading(false), Toast]
      ensures body.Some? ==>
                && threw == body.value.failsAfter
                && trace == old(trace) + [SetLoading(false)] + Writes(|ReadValues(body.value)|)
                && Cached() == ApplyReads(old(Cached()), ReadValues(body.value), now)
    {
      ghost var start := Cached();
      isLoading := false;
      trace := trace + [SetLoading(false)];
      if body.None? {
        trace := trace + [Toast];
        return false;
      }
      var stream := body.value;
      ghost var values := ReadValues(stream);
      ghost var trace0 := trace;
      var done := false;
      var accResponse := "";
      var i := 0;
      while !done
        invariant Valid() && !isLoading
        invariant 0 <= i <= |values|
        invariant done ==> i == |values| && !stream.failsAfter
        invariant !done ==> i <= |stream.chunks|
        invariant accResponse == Concat(values[..i])
        invariant Cached() == ApplyReads(start, values[..i], now)
        invariant trace == trace0 + Writes(i)
        decreases |values| - i
      {
        var value: string;
        var doneReading: bool;
        if i < |stream.chunks| {
          value, doneReading := stream.chunks[i], false;
        } else if stream.failsAfter {
          assert values[..i] == values;
          return true;
        } else {
          value, doneReading := "", true;
        }
        done := doneReading;
        assert value == values[i];
        ReadStep(start, values, i, now);
        accResponse := accResponse + value;
        ghost var before := Cached();
        UpsertPlaceholder(accResponse, now);
        assert Cached() == ChunkUpdate(before, accResponse, now);
        i := i + 1;
      }
      assert values[..i] == values;
      threw := false;
    }

    /** `onError`: put the backed-up text back in the input and write the
        rollback list (empty without a context) under `{fileId}`. The live
        entry under `{fileId, limit}` is left as it is. */
    method OnError(context: Option<seq<Message>>)
      modifies this`message, this`rollback, this`trace
      ensures message == backupMessage
      ensures rollback == Some(context.GetOr([]))
      ensures trace == old(trace) + [RestoreInput, WriteRollback]
      ensures Cached() == old(Cached())
    {
      message := backupMessage;
      trace := trace + [RestoreInput];
      rollback := Some(context.GetOr([]));
      trace := trace + [WriteRollback];
    }

    /** `onSettled`: clear loading, then invalidate this file's messages. */
    method OnSettled()
      modifies this`isLoading, this`trace
      ensures !isLoading && trace == old(trace) + [SetLoading(false), Invalidate(fileId)]
      ensures Cached() == old(Cached())
    {
      isLoading := false;
      trace := trace + [SetLoading(false)];
      trace := trace + [Invalidate(fileId)];
    }

    /** `addMessage`: send whatever the input holds, empty text included,
        through the mutation's callbacks in react-query's order: onMutate;
        if it threw, onError without context; otherwise the request, then
        onSuccess, or onError with the context if the request or a read
        failed; and onSettled on every path. `now` is the clock when the
        optimistic message is made, `replyAt` when the placeholder is. */
    method AddMessage(newId: string, now: string, replyAt: string, outcome: SendOutcome)
      requires Valid()
      modifies this, FirstPage()
      ensures Valid()
      ensures !isLoading && backupMessage == old(message)
      ensures |trace| >= 2 && trace[|trace| - 2..] == [SetLoading(false), Invalidate(fileId)]
      ensures SendFails(old(Cached()), outcome) ==> message == old(message) && rollback.Some?
      ensures !SendFails(old(Cached()), outcome) ==> message == "" && rollback == old(rollback)
      ensures old(Cached()) == Some([]) ==> rollback == Some([]) && infinite == old(infinite)
      ensures old(Cached()).Some? && old(Cached()).value != [] && outcome.Rejected? ==>
                Cached() == Some(PrependToFirst(old(Cached()).value, Optimistic(newId, now, old(message))))
      ensures old(Cached()).Some? && old(Cached()).value != [] && old(unkeyed) == old(infinite) && outcome.Rejected? ==>
                rollback == Some([Optimistic(newId, now, old(message))] + Flatten(old(Cached()).value))
      ensures old(Cached()).Some? && old(Cached()).value != [] && outcome.Resolved? && outcome.body.Some? ==>
                Cached() == ApplyReads(Some(PrependToFirst(old(Cached()).value, Optimistic(newId, now, old(message)))),
                                       ReadValues(outcome.body.value), replyAt)
      ensures old(Cached()).Some? && old(Cached()).value != [] && !AnyPageHasPlaceholder(old(Cached()).value)
              && newId != AiResponseId && outcome.Resolved? && outcome.body.Some? && !outcome.body.value.failsAfter ==>
                Cached() == Some(WithPlaceholder(PrependToFirst(old(Cached()).value, Optimistic(newId, now, old(message))),
                                                 replyAt, Concat(outcome.body.value.chunks)))
    {
      var text := message;
      ghost var before := Cached();
      var r := OnMutate(text, newId, now);
      if r.Err? {
        OnError(None);
        OnSettled();
        return;
      }
      match outcome {
        case Rejected =>
          OnError(Some(r.value));
        case Resolved(body) =>
          var threw := OnSuccess(body, replyAt);
          if threw {
            OnError(Some(r.value));
          }
          if body.Some? && !body.value.failsAfter && before.Some? && before.value != []
             && !AnyPageHasPlaceholder(before.value) && newId != AiResponseId {
            var pages := PrependToFirst(before.value, Optimistic(newId, now, text));
            PrependKeepsNoPlaceholder(before.value, Optimistic(newId, now, text));
            FullStreamAnswer(pages, body.value, replyAt);
          }
      }
      OnSettled();
    }
  }
}
