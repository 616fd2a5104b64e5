/** The tRPC router: the post-sign-in user sync (`authCallback`) and the
    file procedures, each scoped to the calling user. The private procedures
    run only after the auth middleware produced a non-empty `userId`, which
    is their precondition here. */
module AppRouter {
  import opened Common
  import opened Database

  /** The errors a procedure ends with; any throw that is not a tRPC error
      reaches the client as INTERNAL_SERVER_ERROR. */
  datatype TrpcError = Unauthorized | NotFound | InternalServerError

  /** The `code` the client reads from `err.data`. */
  function CodeOf(e: TrpcError): string {
    match e
    case Unauthorized => "UNAUTHORIZED"
    case NotFound => "NOT_FOUND"
    case InternalServerError => "INTERNAL_SERVER_ERROR"
  }

  /** The first user row with that id, if any. */
  function FindUser(users: seq<UserRow>, id: string): (r: Option<UserRow>)
    ensures r.Some? ==> r.value in users && r.value.id == id
    ensures r.None? <==> forall u :: u in users ==> u.id != id
  {
    if users == [] then None
    else if users[0].id == id then Some(users[0])
    else
      assert forall u :: u in users ==> u == users[0] || u in users[1..];
      FindUser(users[1..], id)
  }

  /** The user table after the create-if-absent step of `authCallback`. */
  function EnsureUser(users: seq<UserRow>, id: string, email: string): seq<UserRow> {
    if FindUser(users, id).Some? then users else users + [UserRow(id, email)]
  }

  /** After the sync, the table holds exactly one row with the caller's id,
      every earlier row is still there in place, ids stay unique, and a
      second sync (whatever email it carries) changes nothing. */
  lemma EnsureUserOneRecord(users: seq<UserRow>, id: string, email: string, email2: string)
    requires UniqueUserIds(users)
    ensures var r := EnsureUser(users, id, email);
      && UniqueUserIds(r)
      && |r| >= |users| && r[..|users|] == users
      && (exists i :: 0 <= i < |r| && r[i].id == id)
      && (forall i, j :: 0 <= i < |r| && 0 <= j < |r| && r[i].id == id && r[j].id == id ==> i == j)
      && EnsureUser(r, id, email2) == r
  {
    var r := EnsureUser(users, id, email);
    if FindUser(users, id).Some? {
      var u := FindUser(users, id).value;
      var i :| 0 <= i < |users| && users[i] == u;
    } else {
      assert r[|users|].id == id;
      assert forall u :: u in r ==> u in users || u == UserRow(id, email);
      assert FindUser(r, id).Some? by {
        assert UserRow(id, email) in r;
      }
    }
  }

  /** `authCallback`: with no session user, reading its id throws, which
      the client sees as INTERNAL_SERVER_ERROR; without a session id or
      email it throws UNAUTHORIZED; both touch nothing. Otherwise it creates
      the user when absent and reports success. */
  method AuthCallback(db: Db, session: Option<SessionUser>) returns (r: Result<bool, TrpcError>)
    requires db.Valid()
    modifies db`users
    ensures db.Valid()
    ensures session.None? ==> r == Err(InternalServerError) && db.users == old(db.users)
    ensures session.Some? && (!Truthy(session.value.id) || !Truthy(session.value.email)) ==>
              r == Err(Unauthorized) && db.users == old(db.users)
    ensures session.Some? && Truthy(session.value.id) && Truthy(session.value.email) ==>
              r == Ok(true) && db.users == EnsureUser(old(db.users), session.value.id.value, session.value.email.value)
  {
    if session.None? {
      return Err(InternalServerError);
    }
    var user := session.value;
    if !Truthy(user.id) || !Truthy(user.email) {
      return Err(Unauthorized);
    }
    var id := user.id.value;
    var dbUser := FindUser(db.users, id);
    if dbUser.None? {
      db.CreateUser(UserRow(id, user.email.value));
    }
    return Ok(true);
  }

  /** `getUserFiles`: exactly the caller's files. */
  method GetUserFiles(db: Db, userId: string) returns (r: seq<FileRow>)
    requires userId != ""
    ensures forall f :: f in r <==> f in db.files && f.userId == userId
  {
    r := FilesOfUser(db.files, userId);
  }

  /** `getFile`: a file with that key owned by the caller, else NOT_FOUND. */
  method GetFile(db: Db, userId: string, key: string) returns (r: Result<FileRow, TrpcError>)
    requires userId != ""
    ensures r.Ok? ==> r.value in db.files && r.value.key == key && r.value.userId == userId
    ensures r.Err? <==> forall f :: f in db.files ==> !(f.key == key && f.userId == userId)
    ensures r.Err? ==> r.error == NotFound
  {
    var file := FindFirstFile(db.files, KeyOwnedBy(key, userId));
    if file.None? {
      return Err(NotFound);
    }
    return Ok(file.value);
  }

  /** `deleteFile`: NOT_FOUND, with the table as it was, unless the caller
      owns a file with that id; otherwise exactly that row is removed and
      returned, and every other row stays in order. */
  method DeleteFile(db: Db, userId: string, id: string) returns (r: Result<FileRow, TrpcError>)
    requires userId != "" && db.Valid()
    modifies db`files
    ensures db.Valid()
    ensures r.Err? <==> forall f :: f in old(db.files) ==> !(f.id == id && f.userId == userId)
    ensures r.Err? ==> r.error == NotFound && db.files == old(db.files)
    ensures r.Ok? ==> exists k :: 0 <= k < |old(db.files)| && old(db.files)[k] == r.value
                        && r.value.id == id && r.value.userId == userId
                        && db.files == old(db.files)[..k] + old(db.files)[k + 1..]
  {
    var file := FindFirstFile(db.files, IdOwnedBy(id, userId));
    if file.None? {
      return Err(NotFound);
    }
    ghost var k :| 0 <= k < |db.files| && db.files[k] == file.value && Matches(db.files[k], IdOwnedBy(id, userId));
    RemoveFileExactlyOne(db.files, id, userId, k);
    db.DeleteFile(id, userId);
    return Ok(file.value);
  }
}
