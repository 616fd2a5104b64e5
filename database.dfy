/** The three tables the server code reads and writes (users, files,
    messages), the session user handed out by the identity provider, and
    the queries the handlers run over the tables, as functions on rows. */
module Database {
  import opened Common

  /** The ingestion state stored on a file record. */
  datatype UploadStatus = Pending | Processing | Success | Failed

  datatype UserRow = UserRow(id: string, email: string)

  datatype FileRow = FileRow(id: string, name: string, url: string, key: string,
                             uploadStatus: UploadStatus, userId: string, createdAt: int)

  datatype MessageRow = MessageRow(id: string, text: string, isUserMessage: bool,
                                   userId: string, fileId: string, createdAt: int)

  /** The user the session reports; either field may be missing. */
  datatype SessionUser = SessionUser(id: Option<string>, email: Option<string>)

  /** JavaScript truthiness of an optional string: present and not "". */
  predicate Truthy(s: Option<string>) { s.Some? && s.value != "" }

  ghost predicate UniqueFileIds(files: seq<FileRow>) {
    forall i, j :: 0 <= i < j < |files| ==> files[i].id != files[j].id
  }

  ghost predicate UniqueUserIds(users: seq<UserRow>) {
    forall i, j :: 0 <= i < j < |users| ==> users[i].id != users[j].id
  }

  /** The `where` clauses the handlers put on the file table. */
  datatype FileWhere = IdOwnedBy(id: string, userId: string) | KeyOwnedBy(key: string, userId: string)

  predicate Matches(f: FileRow, w: FileWhere) {
    match w
    case IdOwnedBy(id, userId) => f.id == id && f.userId == userId
    case KeyOwnedBy(key, userId) => f.key == key && f.userId == userId
  }

  /** `findFirst` on the file table: the first row in table order that
      matches, or nothing when none does. */
  function FindFirstFile(files: seq<FileRow>, w: FileWhere): (r: Option<FileRow>)
    ensures r.Some? ==> exists i :: 0 <= i < |files| && files[i] == r.value
                                && Matches(files[i], w)
                                && forall j :: 0 <= j < i ==> !Matches(files[j], w)
    ensures r.None? <==> forall i :: 0 <= i < |files| ==> !Matches(files[i], w)
  {
    if files == [] then None
    else if Matches(files[0], w) then Some(files[0])
    else
      var rest := FindFirstFile(files[1..], w);
      assert rest.Some? ==> exists i :: 0 <= i < |files| && files[i] == rest.value
                                && Matches(files[i], w)
                                && forall j :: 0 <= j < i ==> !Matches(files[j], w) by {
        if rest.Some? {
          var i :| 0 <= i < |files[1..]| && files[1..][i] == rest.value
                   && Matches(files[1..][i], w) && forall j :: 0 <= j < i ==> !Matches(files[1..][j], w);
          assert files[i + 1] == rest.value;
          forall j | 0 <= j < i + 1 ensures !Matches(files[j], w) {
            if j > 0 { assert files[j] == files[1..][j - 1]; }
          }
        }
      }
      assert rest.None? <==> forall i :: 0 <= i < |files| ==> !Matches(files[i], w) by {
        assert forall i :: 0 < i < |files| ==> files[i] == files[1..][i - 1];
      }
      rest
  }

  /** `findMany({where: {userId}})` on the file table, in table order. */
  function FilesOfUser(files: seq<FileRow>, userId: string): (r: seq<FileRow>)
    ensures forall f :: f in r <==> f in files && f.userId == userId
    ensures |r| <= |files|
  {
    if files == [] then []
    else (if files[0].userId == userId then [files[0]] else []) + FilesOfUser(files[1..], userId)
  }

  /** The file table after `delete({where: {id, userId}})`: the matching row
      is gone and every other row stays, in order. */
  function RemoveFile(files: seq<FileRow>, id: string, userId: string): (r: seq<FileRow>)
    ensures forall f :: f in r <==> f in files && !Matches(f, IdOwnedBy(id, userId))
    ensures |r| <= |files|
  {
    if files == [] then []
    else (if Matches(files[0], IdOwnedBy(id, userId)) then [] else [files[0]])
         + RemoveFile(files[1..], id, userId)
  }

  /** With unique ids, deleting the row at index k removes exactly that row. */
  lemma {:induction false} RemoveFileExactlyOne(files: seq<FileRow>, id: string, userId: string, k: nat)
    requires UniqueFileIds(files)
    requires k < |files| && Matches(files[k], IdOwnedBy(id, userId))
    ensures RemoveFile(files, id, userId) == files[..k] + files[k + 1..]
  {
    if k == 0 {
      assert forall f :: f in files[1..] ==> f.id != id;
      RemoveNothing(files[1..], id, userId);
    } else {
      RemoveFileExactlyOne(files[1..], id, userId, k - 1);
      assert files[..k] == [files[0]] + files[1..][..k - 1];
      assert files[k + 1..] == files[1..][k..];
    }
  }

  /** Deleting an id that no row carries leaves the table as it was. */
  lemma {:induction false} RemoveNothing(files: seq<FileRow>, id: string, userId: string)
    requires forall f :: f in files ==> f.id != id
    ensures RemoveFile(files, id, userId) == files
  {
    if files != [] {
      assert forall f :: f in files[1..] ==> f in files;
      RemoveNothing(files[1..], id, userId);
    }
  }

  /** The table after `update({where: {id}, data: {uploadStatus}})`: the row
      with that id takes the new status; everything else is kept. */
  function SetStatus(files: seq<FileRow>, id: string, status: UploadStatus): (r: seq<FileRow>)
    ensures |r| == |files|
    ensures forall i :: 0 <= i < |files| ==>
              r[i] == (if files[i].id == id then files[i].(uploadStatus := status) else files[i])
  {
    if files == [] then []
    else [if files[0].id == id then files[0].(uploadStatus := status) else files[0]]
         + SetStatus(files[1..], id, status)
  }

  /** A status update changes no id, so ids stay unique. */
  lemma SetStatusKeepsIds(files: seq<FileRow>, id: string, status: UploadStatus)
    requires UniqueFileIds(files)
    ensures UniqueFileIds(SetStatus(files, id, status))
  {
  }

  /** The messages of one file, in table order. */
  function MessagesOf(rows: seq<MessageRow>, fileId: string): (r: seq<MessageRow>)
    ensures multiset(r) <= multiset(rows)
    ensures forall m :: m in r <==> m in rows && m.fileId == fileId
  {
    if rows == [] then []
    else
      var rest := MessagesOf(rows[1..], fileId);
      assert rows == [rows[0]] + rows[1..];
      (if rows[0].fileId == fileId then [rows[0]] else []) + rest
  }

  predicate SortedByCreated(s: seq<MessageRow>) {
    forall i, j :: 0 <= i < j < |s| ==> s[i].createdAt <= s[j].createdAt
  }

  /** Puts `m` before the first row that is not older than it. */
  function InsertByCreated(m: MessageRow, s: seq<MessageRow>): (r: seq<MessageRow>)
    requires SortedByCreated(s)
    ensures SortedByCreated(r)
    ensures multiset(r) == multiset(s) + multiset{m}
  {
    if s == [] || m.createdAt <= s[0].createdAt then [m] + s
    else
      var rest := InsertByCreated(m, s[1..]);
      assert s == [s[0]] + s[1..];
      LowerBoundCarries(s[0].createdAt, m, s[1..], rest);
      SortedCons(s[0], rest);
      [s[0]] + rest
  }

  /** A row no newer than every row of a sorted list can go in front of it. */
  lemma SortedCons(x: MessageRow, s: seq<MessageRow>)
    requires SortedByCreated(s)
    requires forall k :: 0 <= k < |s| ==> x.createdAt <= s[k].createdAt
    ensures SortedByCreated([x] + s)
  {
    var r := [x] + s;
    assert forall k :: 0 < k < |r| ==> r[k] == s[k - 1];
  }

  /** A lower bound on the creation times of `s` and of `m` holds for any
      arrangement of `s` and `m`. */
  lemma LowerBoundCarries(b: int, m: MessageRow, s: seq<MessageRow>, r: seq<MessageRow>)
    requires multiset(r) == multiset(s) + multiset{m}
    requires b <= m.createdAt && forall k :: 0 <= k < |s| ==> b <= s[k].createdAt
    ensures forall k :: 0 <= k < |r| ==> b <= r[k].createdAt
  {
    forall k | 0 <= k < |r| ensures b <= r[k].createdAt {
      assert r[k] in multiset(r);
      if r[k] != m {
        assert r[k] in multiset(s);
        var j :| 0 <= j < |s| && s[j] == r[k];
      }
    }
  }

  /** `orderBy: {createdAt: "asc"}`: ascending creation time, as an insertion
      sort that keeps table order among equal times. */
  function SortByCreated(s: seq<MessageRow>): (r: seq<MessageRow>)
    ensures SortedByCreated(r)
    ensures multiset(r) == multiset(s)
  {
    if s == [] then []
    else
      assert s == [s[0]] + s[1..];
      InsertByCreated(s[0], SortByCreated(s[1..]))
  }

  /** `findMany({where: {fileId}, orderBy: {createdAt: "asc"}, take: n})`. */
  function OldestMessages(rows: seq<MessageRow>, fileId: string, n: nat): seq<MessageRow> {
    var sorted := SortByCreated(MessagesOf(rows, fileId));
    if |sorted| <= n then sorted else sorted[..n]
  }

  /** The first n rows of a sorted list are no newer than any row after them. */
  lemma {:induction false} PrefixIsOldest(sorted: seq<MessageRow>, n: nat)
    requires SortedByCreated(sorted) && n <= |sorted|
    ensures multiset(sorted[..n]) <= multiset(sorted)
    ensures forall m, x :: m in multiset(sorted) - multiset(sorted[..n]) && x in sorted[..n] ==>
              x.createdAt <= m.createdAt
  {
    var r := sorted[..n];
    assert sorted == r + sorted[n..];
    assert multiset(sorted) == multiset(r) + multiset(sorted[n..]);
    forall m, x | m in multiset(sorted) - multiset(r) && x in r
      ensures x.createdAt <= m.createdAt
    {
      assert m in multiset(sorted[n..]);
      var j :| 0 <= j < |sorted[n..]| && sorted[n..][j] == m;
      var i :| 0 <= i < |r| && r[i] == x;
      assert sorted[i] == x && sorted[n + j] == m;
    }
  }

  /** The window holds min(n, count) messages, all of them the file's, in
      ascending creation time. */
  lemma {:induction false} OldestMessagesWindow(rows: seq<MessageRow>, fileId: string, n: nat)
    ensures var r := OldestMessages(rows, fileId, n);
      && var count := |MessagesOf(rows, fileId)|;
      && |r| == (if count <= n then count else n)
      && SortedByCreated(r)
      && forall m :: m in r ==> m in rows && m.fileId == fileId
  {
    var all := MessagesOf(rows, fileId);
    var sorted := SortByCreated(all);
    var r := OldestMessages(rows, fileId, n);
    assert |sorted| == |all| by {
      assert |multiset(sorted)| == |multiset(all)|;
    }
    forall m | m in r ensures m in rows && m.fileId == fileId {
      assert m in sorted;
      assert m in multiset(sorted);
      assert m in multiset(all);
    }
  }

  /** None of the file's messages left out of the window is older than a
      message in it: the window is the oldest n, not the newest. */
  lemma {:induction false} OldestMessagesAreOldest(rows: seq<MessageRow>, fileId: string, n: nat)
    ensures var r := OldestMessages(rows, fileId, n);
      var all := MessagesOf(rows, fileId);
      && multiset(r) <= multiset(all)
      && forall m, x :: m in multiset(all) - multiset(r) && x in r ==> x.createdAt <= m.createdAt
  {
    var sorted := SortByCreated(MessagesOf(rows, fileId));
    var k := if |sorted| <= n then |sorted| else n;
    assert sorted[..|sorted|] == sorted;
    PrefixIsOldest(sorted, k);
  }

  /** The tables, kept by the database. `statusLog` records, in order, every
      status written to a file row, with that row's id. */
  class Db {
    var users: seq<UserRow>
    var files: seq<FileRow>
    var messages: seq<MessageRow>
    ghost var statusLog: seq<(string, UploadStatus)>

    ghost predicate Valid()
      reads this
    {
      UniqueFileIds(files) && UniqueUserIds(users)
    }

    constructor ()
      ensures Valid()
      ensures users == [] && files == [] && messages == [] && statusLog == []
    {
      users := [];
      files := [];
      messages := [];
      statusLog := [];
    }

    /** `user.create`; the id is the primary key and must be new. */
    method CreateUser(row: UserRow)
      requires Valid()
      requires forall u :: u in users ==> u.id != row.id
      modifies this`users
      ensures Valid()
      ensures users == old(users) + [row]
    {
      users := users + [row];
    }

    /** `file.create`; the generated id is new. */
    method CreateFile(row: FileRow)
      requires Valid()
      requires forall f :: f in files ==> f.id != row.id
      modifies this`files, this`statusLog
      ensures Valid()
      ensures files == old(files) + [row]
      ensures statusLog == old(statusLog) + [(row.id, row.uploadStatus)]
    {
      files := files + [row];
      statusLog := statusLog + [(row.id, row.uploadStatus)];
    }

    /** `file.update` by id; `found` is false where the call would reject
        because no row has that id. */
    method UpdateFileStatus(id: string, status: UploadStatus) returns (found: bool)
      requires Valid()
      modifies this`files, this`statusLog
      ensures Valid()
      ensures found <==> exists i :: 0 <= i < |old(files)| && old(files)[i].id == id
      ensures files == SetStatus(old(files), id, status)
      ensures statusLog == old(statusLog) + (if found then [(id, status)] else [])
    {
      found := exists i :: 0 <= i < |files| && files[i].id == id;
      SetStatusKeepsIds(files, id, status);
      files := SetStatus(files, id, status);
      if found {
        statusLog := statusLog + [(id, status)];
      }
    }

    /** `file.delete({where: {id, userId}})`. */
    method DeleteFile(id: string, userId: string)
      requires Valid()
      modifies this`files
      ensures Valid()
      ensures files == RemoveFile(old(files), id, userId)
    {
      var r := RemoveFile(files, id, userId);
      assert forall f :: f in r ==> f in files;
      RemovePreservesUnique(files, id, userId);
      files := r;
    }

    /** `message.create`. */
    method CreateMessage(row: MessageRow)
      modifies this`messages
      ensures messages == old(messages) + [row]
    {
      messages := messages + [row];
    }
  }

  /** Deleting rows keeps the remaining ids unique. */
  lemma {:induction false} RemovePreservesUnique(files: seq<FileRow>, id: string, userId: string)
    requires UniqueFileIds(files)
    ensures UniqueFileIds(RemoveFile(files, id, userId))
  {
    if files != [] {
      RemovePreservesUnique(files[1..], id, userId);
      var rest := RemoveFile(files[1..], id, userId);
      assert forall f :: f in rest ==> f in files[1..];
      assert forall f :: f in files[1..] ==> f.id != files[0].id;
    }
  }
}
