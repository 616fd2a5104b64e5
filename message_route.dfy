/** The message endpoint: authenticate, validate, check ownership, store
    the question, take the conversation window and hand it to the model;
    when the model's stream completes, store the answer. The embeddings,
    the similarity search and the completion call are foreign: whether they
    throw, and the passages found, are a parameter, and the completion text
    arrives in `OnCompletion`. */
module MessageRoute {
  import opened Common
  import opened Database

  /** The history window size of the `take` clause. */
  const HistoryWindow: nat := 6

  /** A validated request body. */
  datatype SendMessage = SendMessage(fileId: string, message: string)

  datatype Role = User | Assistant

  datatype ChatTurn = ChatTurn(role: Role, content: string)

  /** What the handler sends to the model besides its fixed instructions:
      the formatted history, the retrieved passages and the question. */
  datatype Prompt = Prompt(history: seq<ChatTurn>, passages: seq<string>, question: string)

  /** The request's raw body: JSON that the validator accepts (`Some`) or
      rejects (`None`), or text that is not JSON at all. */
  datatype RequestBody = NotJson | Json(parsed: Option<SendMessage>)

  /** What the foreign calls after the insert do: the embeddings, the
      similarity search and the completion call all succeed, the search
      having found these passages, or one of them throws. */
  datatype Services = Answered(passages: seq<string>) | ServiceThrew

  /** Why the handler threw instead of returning a response. */
  datatype Failure = BodyNotJson | NoSession | BodyRejected | ServiceFailed

  /** The handler's outcome: a plain response with a status, an uncaught
      throw (which the server answers with a 500), or the streaming
      response for a prompt. */
  datatype Response = Respond(status: int, text: string) | Threw(failure: Failure) | Streaming(prompt: Prompt)

  /** The role mapping: a user message becomes a `user` turn, any other an
      `assistant` turn, with the text as content, in the same order. */
  function FormatHistory(msgs: seq<MessageRow>): (r: seq<ChatTurn>)
    ensures |r| == |msgs|
    ensures forall i :: 0 <= i < |msgs| ==>
              (r[i].role == User <==> msgs[i].isUserMessage) && r[i].content == msgs[i].text
  {
    if msgs == [] then []
    else [ChatTurn(if msgs[0].isUserMessage then User else Assistant, msgs[0].text)]
         + FormatHistory(msgs[1..])
  }

  /** The query unfolded once at the front of the table. */
  lemma MessagesOfCons(x: MessageRow, rest: seq<MessageRow>, fileId: string)
    ensures MessagesOf([x] + rest, fileId)
            == (if x.fileId == fileId then [x] else []) + MessagesOf(rest, fileId)
  {
    assert ([x] + rest)[0] == x;
    assert ([x] + rest)[1..] == rest;
  }

  /** A non-empty table is its first row followed by the rest, also after
      an append. */
  lemma SplitFirst(rows: seq<MessageRow>, row: MessageRow)
    requires rows != []
    ensures rows == [rows[0]] + rows[1..]
    ensures rows + [row] == [rows[0]] + (rows[1..] + [row])
  {
  }

  /** Kept apart so the step does not pull the query's contract into a
      sequence-equality proof. */
  lemma ConcatAssoc(a: seq<MessageRow>, b: seq<MessageRow>, c: seq<MessageRow>)
    ensures a + (b + c) == (a + b) + c
  {
  }

  /** Appending a row of the file appends it to the file's messages. */
  lemma {:induction false} MessagesOfAppend(rows: seq<MessageRow>, row: MessageRow, fileId: string)
    ensures MessagesOf(rows + [row], fileId)
            == MessagesOf(rows, fileId) + (if row.fileId == fileId then [row] else [])
  {
    var tail := if row.fileId == fileId then [row] else [];
    if rows == [] {
      MessagesOfCons(row, [], fileId);
      assert [row] + [] == rows + [row];
    } else {
      var x, rest := rows[0], rows[1..];
      var head := if x.fileId == fileId then [x] else [];
      SplitFirst(rows, row);
      MessagesOfCons(x, rest + [row], fileId);
      MessagesOfCons(x, rest, fileId);
      MessagesOfAppend(rest, row, fileId);
      ConcatAssoc(head, MessagesOf(rest, fileId), tail);
    }
  }

  /** Because the question is stored before the window is read, a file with
      fewer than six earlier messages always sees its new question in the
      history sent to the model. */
  lemma NewQuestionInWindow(rows: seq<MessageRow>, row: MessageRow, fileId: string)
    requires row.fileId == fileId && |MessagesOf(rows, fileId)| < HistoryWindow
    ensures row in OldestMessages(rows + [row], fileId, HistoryWindow)
  {
    var after := rows + [row];
    MessagesOfAppend(rows, row, fileId);
    var all := MessagesOf(after, fileId);
    var r := OldestMessages(after, fileId, HistoryWindow);
    OldestMessagesWindow(after, fileId, HistoryWindow);
    OldestMessagesAreOldest(after, fileId, HistoryWindow);
    assert |r| == |all|;
    assert multiset(r) == multiset(all) by {
      assert |multiset(r)| == |multiset(all)|;
      assert multiset(all) == multiset(r) + (multiset(all) - multiset(r));
    }
    assert all[|all| - 1] == row;
    assert row in multiset(all);
  }

  /** `POST`, in the handler's order: the body is read as JSON first, so
      text that is not JSON throws before anything else; a missing session
      user throws when its id is read; a caller without an id gets 401; a
      body the validator refuses throws; a caller owning no file with that
      id gets 404. Nothing is written on these paths. Otherwise the
      question is stored as the caller's user message; if a foreign call
      then throws, the question stays stored; else the six oldest messages
      of the file, the new one included, form the history of the prompt. */
  method Post(db: Db, body: RequestBody, user: Option<SessionUser>, newId: string, now: int,
              services: Services) returns (r: Response)
    modifies db`messages
    ensures body.NotJson? ==> r == Threw(BodyNotJson) && db.messages == old(db.messages)
    ensures body.Json? && user.None? ==> r == Threw(NoSession) && db.messages == old(db.messages)
    ensures body.Json? && user.Some? && !Truthy(user.value.id) ==>
              r == Respond(401, "Unauthorized") && db.messages == old(db.messages)
    ensures body.Json? && user.Some? && Truthy(user.value.id) && body.parsed.None? ==>
              r == Threw(BodyRejected) && db.messages == old(db.messages)
    ensures body.Json? && user.Some? && Truthy(user.value.id) && body.parsed.Some?
            && FindFirstFile(db.files, IdOwnedBy(body.parsed.value.fileId, user.value.id.value)).None? ==>
              r == Respond(404, "Not Found") && db.messages == old(db.messages)
    ensures body.Json? && user.Some? && Truthy(user.value.id) && body.parsed.Some?
            && FindFirstFile(db.files, IdOwnedBy(body.parsed.value.fileId, user.value.id.value)).Some? ==>
              var req := body.parsed.value;
              && db.messages == old(db.messages) + [MessageRow(newId, req.message, true, user.value.id.value, req.fileId, now)]
              && (services.ServiceThrew? ==> r == Threw(ServiceFailed))
              && (services.Answered? ==>
                    r == Streaming(Prompt(FormatHistory(OldestMessages(db.messages, req.fileId, HistoryWindow)),
                                          services.passages, req.message)))
  {
    if body.NotJson? {
      return Threw(BodyNotJson);
    }
    if user.None? {
      return Threw(NoSession);
    }
    if !Truthy(user.value.id) {
      return Respond(401, "Unauthorized");
    }
    var userId := user.value.id.value;
    if body.parsed.None? {
      return Threw(BodyRejected);
    }
    var fileId, message := body.parsed.value.fileId, body.parsed.value.message;
    var file := FindFirstFile(db.files, IdOwnedBy(fileId, userId));
    if file.None? {
      return Respond(404, "Not Found");
    }
    db.CreateMessage(MessageRow(newId, message, true, userId, fileId, now));
    if services.ServiceThrew? {
      return Threw(ServiceFailed);
    }
    var prevMessages := OldestMessages(db.messages, fileId, HistoryWindow);
    var formatted := FormatHistory(prevMessages);
    return Streaming(Prompt(formatted, services.passages, message));
  }

  /** The stream's `onCompletion`: one assistant message with the whole
      completion, for the same user and file. */
  method OnCompletion(db: Db, userId: string, fileId: string, completion: string, newId: string, now: int)
    modifies db`messages
    ensures db.messages == old(db.messages) + [MessageRow(newId, completion, false, userId, fileId, now)]
  {
    db.CreateMessage(MessageRow(newId, completion, false, userId, fileId, now));
  }
}
