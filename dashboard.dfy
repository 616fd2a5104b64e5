/** The dashboard: the caller's files, sorted in place by creation time
    (oldest first) and shown as links to their chat pages, or a skeleton
    while loading, or the empty state. */
module Dashboard {
  import opened Common
  import opened Database

  predicate SortedByCreatedAt(s: seq<FileRow>) {
    forall k, l :: 0 <= k < l < |s| ==> s[k].createdAt <= s[l].createdAt
  }

  /** `files.sort((a, b) => time(a) - time(b))`, on the fetched array
      itself: afterwards it is ascending in creation time and holds the same
      rows. */
  method SortByCreatedAt(a: array<FileRow>)
    modifies a
    ensures SortedByCreatedAt(a[..])
    ensures multiset(a[..]) == multiset(old(a[..]))
  {
    var i := 0;
    while i < a.Length
      invariant 0 <= i <= a.Length
      invariant SortedByCreatedAt(a[..i])
      invariant multiset(a[..]) == multiset(old(a[..]))
    {
      InsertAt(a, i);
      i := i + 1;
    }
    assert a[..a.Length] == a[..];
  }

  /** Moves `a[i]` left past the rows before it that are newer, extending
      the sorted prefix by one. */
  method InsertAt(a: array<FileRow>, i: nat)
    requires i < a.Length && SortedByCreatedAt(a[..i])
    modifies a
    ensures SortedByCreatedAt(a[..i + 1])
    ensures multiset(a[..]) == multiset(old(a[..]))
  {
    assert forall k, l :: 0 <= k < l < i ==> a[..i][k] == a[k] && a[..i][l] == a[l];
    var j := i;
    while j > 0 && a[j - 1].createdAt > a[j].createdAt
      invariant 0 <= j <= i
      invariant multiset(a[..]) == multiset(old(a[..]))
      invariant forall k, l :: 0 <= k < l <= i && k != j && l != j ==> a[k].createdAt <= a[l].createdAt
      invariant forall l :: j < l <= i ==> a[j].createdAt <= a[l].createdAt
    {
      SwapDown(a, j);
      j := j - 1;
    }
    assert forall k :: 0 <= k < i + 1 ==> a[..i + 1][k] == a[k];
  }

  /** Exchanges `a[j - 1]` and `a[j]`. */
  method SwapDown(a: array<FileRow>, j: nat)
    requires 0 < j < a.Length
    modifies a
    ensures a[..] == old(a[..])[j - 1 := old(a[j])][j := old(a[j - 1])]
    ensures multiset(a[..]) == multiset(old(a[..]))
  {
    a[j - 1], a[j] := a[j], a[j - 1];
  }

  /** One list item: its React key and its link target. */
  datatype FileLink = FileLink(key: string, href: string, name: string)

  function LinkOf(f: FileRow): FileLink {
    FileLink(f.id, "/dashboard/" + f.id, f.name)
  }

  function Links(files: seq<FileRow>): (r: seq<FileLink>)
    ensures |r| == |files|
    ensures forall i :: 0 <= i < |files| ==> r[i] == LinkOf(files[i])
  {
    if files == [] then [] else [LinkOf(files[0])] + Links(files[1..])
  }

  /** Each item is keyed by its file's id and links to that file's page. */
  lemma LinksTargetTheirFiles(files: seq<FileRow>)
    ensures forall i :: 0 <= i < |files| ==>
              Links(files)[i].key == files[i].id && Links(files)[i].href == "/dashboard/" + files[i].id
  {
  }

  datatype DashboardView = FileList(links: seq<FileLink>) | LoadingSkeleton | NoFiles

  /** The render: with a non-empty list, sort it in place and list it;
      otherwise a skeleton while loading, else the empty state. */
  method Render(files: Option<array<FileRow>>, isLoading: bool) returns (v: DashboardView)
    modifies if files.Some? then {files.value} else {}
    ensures files.Some? && files.value.Length != 0 ==>
              && SortedByCreatedAt(files.value[..])
              && multiset(files.value[..]) == multiset(old(files.value[..]))
              && v == FileList(Links(files.value[..]))
    ensures (files.None? || files.value.Length == 0) ==> v == if isLoading then LoadingSkeleton else NoFiles
  {
    if files.Some? && files.value.Length != 0 {
      SortByCreatedAt(files.value);
      return FileList(Links(files.value[..]));
    }
    return if isLoading then LoadingSkeleton else NoFiles;
  }
}
