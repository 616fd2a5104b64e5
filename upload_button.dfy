/** The upload dialog: the drop zone with its simulated progress bar, the
    upload hand-off that starts polling for the stored file, the redirect
    once it is found, and the dialog's open/close rule. Timers are explicit:
    an interval is an id in the set of active intervals and each of its
    firings is a call to `Tick`. */
module UploadButton {
  import opened Common
  import opened Database

  /** One firing of the progress interval: at 95 or more the value is kept
      and the interval clears itself; below, five more. */
  function TickProgress(prev: int): (r: (int, bool))
    ensures r.1 <==> prev >= 95
    ensures r.1 ==> r.0 == prev
    ensures !r.1 ==> r.0 == prev + 5
  {
    if prev >= 95 then (prev, true) else (prev + 5, false)
  }

  /** The value after k firings from `start`, had the interval not cleared. */
  function Ticks(start: int, k: nat): int {
    if k == 0 then start else TickProgress(Ticks(start, k - 1)).0
  }

  /** From a reset to 0, the bar climbs by five per firing and stops at 95:
      the simulation never reports a finished upload. */
  lemma {:induction false} TicksFromZero(k: nat)
    ensures Ticks(0, k) == (if 5 * k <= 95 then 5 * k else 95)
  {
    if k > 0 {
      TicksFromZero(k - 1);
    }
  }

  /** The values the bar can show: a multiple of five up to 95 while
      simulating, or 100 once the upload is done. */
  predicate ProgressShape(p: int) {
    (0 <= p <= 95 && p % 5 == 0) || p == 100
  }

  /** A firing keeps the bar's shape. */
  lemma TickKeepsShape(p: int)
    requires ProgressShape(p)
    ensures ProgressShape(TickProgress(p).0)
  {
  }

  /** What the storage upload resolved to: one entry per file, each with the
      key it was stored under, if any. */
  datatype UploadResponse = UploadResponse(key: Option<string>)

  /** The key `onDrop` polls with, when there is a truthy one. */
  function ResponseKey(res: Option<seq<UploadResponse>>): (r: Option<string>)
    ensures r.Some? <==> res.Some? && |res.value| > 0 && Truthy(res.value[0].key)
    ensures r.Some? ==> r.value == res.value[0].key.value && r.value != ""
  {
    if res.None? || |res.value| == 0 || !Truthy(res.value[0].key) then None
    else res.value[0].key
  }

  class UploadDropzone {
    var isUploading: bool
    var uploadProgress: int
    /** The ids of the intervals still firing. */
    var intervals: set<nat>
    var nextInterval: nat
    var toasts: seq<string>
    /** The keys `startPolling` was called with, in order. */
    var polls: seq<string>
    /** The routes pushed, in order. */
    var routes: seq<string>

    ghost predicate Valid()
      reads this
    {
      ProgressShape(uploadProgress) && forall id :: id in intervals ==> id < nextInterval
    }

    constructor ()
      ensures Valid()
      ensures !isUploading && uploadProgress == 0 && intervals == {} && toasts == [] && polls == [] && routes == []
    {
      isUploading := false;
      uploadProgress := 0;
      intervals := {};
      nextInterval := 0;
      toasts := [];
      polls := [];
      routes := [];
    }

    /** The start of `onDrop`: uploading is on, the bar is reset to 0 and a
        new interval starts; its id is returned. */
    method OnDropStart() returns (interval: nat)
      requires Valid()
      modifies this`isUploading, this`uploadProgress, this`intervals, this`nextInterval
      ensures Valid()
      ensures isUploading && uploadProgress == 0
      ensures interval !in old(intervals) && intervals == old(intervals) + {interval}
    {
      isUploading := true;
      uploadProgress := 0;
      interval := nextInterval;
      intervals := intervals + {interval};
      nextInterval := nextInterval + 1;
    }

    /** One firing of an active interval. */
    method Tick(interval: nat)
      requires Valid() && interval in intervals
      modifies this`uploadProgress, this`intervals
      ensures Valid()
      ensures uploadProgress == TickProgress(old(uploadProgress)).0
      ensures intervals == if TickProgress(old(uploadProgress)).1 then old(intervals) - {interval} else old(intervals)
    {
      var next := TickProgress(uploadProgress);
      TickKeepsShape(uploadProgress);
      uploadProgress := next.0;
      if next.1 {
        intervals := intervals - {interval};
      }
    }

    /** The rest of `onDrop` once the upload resolved: without a response or
        without a key, a toast and nothing else (the interval keeps firing);
        otherwise the interval is cleared, the bar set to 100 and polling
        started with the key. */
    method OnUploadResolved(interval: nat, res: Option<seq<UploadResponse>>)
      requires Valid()
      modifies this`uploadProgress, this`intervals, this`toasts, this`polls
      ensures Valid()
      ensures ResponseKey(res).None? ==>
                && toasts == old(toasts) + ["Something went wrong"]
                && uploadProgress == old(uploadProgress) && intervals == old(intervals) && polls == old(polls)
      ensures ResponseKey(res).Some? ==>
                && toasts == old(toasts) && uploadProgress == 100
                && intervals == old(intervals) - {interval}
                && polls == old(polls) + [ResponseKey(res).value]
    {
      if res.None? {
        toasts := toasts + ["Something went wrong"];
        return;
      }
      var key := if |res.value| > 0 then res.value[0].key else None;
      if !Truthy(key) {
        toasts := toasts + ["Something went wrong"];
        return;
      }
      intervals := intervals - {interval};
      uploadProgress := 100;
      polls := polls + [key.value];
    }

    /** The polling mutation's `onSuccess`: open the file's chat page. */
    method OnPollSuccess(file: FileRow)
      modifies this`routes
      ensures routes == old(routes) + ["/dashboard/" + file.id]
    {
      routes := routes + ["/dashboard/" + file.id];
    }
  }

  /** The dialog around the drop zone. */
  class UploadDialog {
    var isOpen: bool

    constructor ()
      ensures !isOpen
    {
      isOpen := false;
    }

    /** `onOpenChange`: only a request to close is honoured. */
    method OnOpenChange(v: bool)
      modifies this
      ensures isOpen == (old(isOpen) && v)
    {
      if !v {
        isOpen := v;
      }
    }

    /** The trigger button: the only way to open the dialog. */
    method OnTriggerClick()
      modifies this
      ensures isOpen
    {
      isOpen := true;
    }
  }
}
