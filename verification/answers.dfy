/** What a client is told, and what that says about the history: the answers of Upload, Update and
    RestoreVersion in internal/api/documents.go. */
module Answers {
  import opened Common
  import opened Documents
  import opened History
  import opened Cluster
  import opened Lossless
  import opened Traces

  /** `Body` is a 2xx answer whose JSON is the document that was read back, or null; `Listing` the one
      of a replaced set of tags or properties. `Panicked` is a handler that goes on with the nil
      document: with metadata extracted from its file it asks for the document's id. */
  datatype Reply = Body(row: Option<Document>) | Listing | Refusal | Panicked

  // What the statement or call of request e.r gave makes the handler give up.
  predicate GivesUp(s: State, e: Event) {
    match e
    case ConnectFails(_) => true
    case LockFails(_, _) => true
    case FetchVersion(r) =>
      r in s.requests && (s.requests[r].op.Restore? || s.requests[r].op.WebRestore?)
      && SelectVersion(s.tables, s.requests[r].op.target, s.requests[r].op.document).None?
    case FetchName(r) =>
      r in s.requests && s.requests[r].op.OnDocument() && SelectDocument(s.tables, s.requests[r].op.document).None?
    case ReadCurrent(r) =>
      r in s.requests && s.requests[r].op.OnDocument() && SelectDocument(s.tables, s.requests[r].op.document).None?
    case Archive(_, _, outcome) => !outcome.Ok()
    case Write(_, outcome) => !outcome.Ok()
    case Create(_, _, outcome) => !outcome.Ok()
    case Reread(_, ok, _) => !ok
    case Fail(r) => r in s.requests && !s.requests[r].at.Leaving?
    case _ => false
  }

  // The answer that request e.r gives at this event, if the event makes it answer.
  function ReplyAt(s: State, e: Event): Option<Reply> {
    if GivesUp(s, e) then Some(Refusal)
    else
      match e
      case Reread(r, _, extracted) =>
        if r !in s.requests || !s.requests[r].at.Written? then None
        else
          var row := SelectDocument(s.tables, s.requests[r].at.document);
          if row.None? && extracted && FileOf(s.requests[r].op).Some? then Some(Panicked) else Some(Body(row))
      case CommitMetadata(_) => Some(Listing)
      case _ => None
  }

  // Nothing has been answered yet.
  predicate Pending(s: State, r: RequestId) {
    r in s.requests && !s.requests[r].at.Leaving? && !s.requests[r].at.Closing?
  }

  /** A request is answered exactly once, at the event after which it only leaves; every other event of
      its own leaves it pending. A crash answers nobody. */
  lemma AnsweredExactlyWhenDone(h: Hashes, s: State, e: Event)
    requires Enabled(h, s, e) && (MovesOn(e) || e.ConnectFails? || e.Connect?)
    ensures ReplyAt(s, e).Some? <==> Pending(s, e.r) && !Pending(Apply(h, s, e), e.r)
  {
  }

  /** A failed statement, a failed read, a row or version that is not there, and a lock that was not
      obtained are answered with a refusal, and nothing else is. */
  lemma RefusedExactlyWhenSomethingFailed(h: Hashes, s: State, e: Event)
    requires Enabled(h, s, e)
    ensures ReplyAt(s, e) == Some(Refusal)
            <==> e.ConnectFails? || e.LockFails? || (e.Fail? && !s.requests[e.r].at.Leaving?)
                 || ((e.Archive? || e.Write? || e.Create?) && (e.outcome.Refused? || e.outcome.Lost?))
                 || (e.Reread? && !e.ok)
                 || (e.FetchVersion? && !(s.requests[e.r].op.target in s.tables.versions
                                          && s.tables.versions[s.requests[e.r].op.target].document == s.requests[e.r].op.document))
                 || ((e.FetchName? || e.ReadCurrent?)
                     && !(s.requests[e.r].op.document in s.tables.documents
                          && !s.tables.documents[s.requests[e.r].op.document].deleted))
  {
  }

  /** An UPDATE that the server reports as done appends to the history exactly when the document is
      live at that moment; a delete in between makes it a statement on no rows, which is no error. */
  lemma WriteAppendsExactlyWhenLive(h: Hashes, s: State, logs: Logs, r: RequestId)
    requires Inv(h, s, logs) && Enabled(h, s, Write(r, Done))
    ensures LogsAfter(s, logs, Write(r, Done)) != logs <==> Live(s.tables, s.requests[r].op.document)
    ensures Apply(h, s, Write(r, Done)).requests[r].at.Written? && ReplyAt(s, Write(r, Done)) == None
  {
    var q := s.requests[r];
    assert RequestFits(h, s.tables, logs, q);
    var d := q.op.document;
    if Live(s.tables, d) {
      assert LogsAfter(s, logs, Write(r, Done))[d] == logs[d] + [q.at.content];
      assert |LogsAfter(s, logs, Write(r, Done))[d]| == |logs[d]| + 1;
    }
  }

  /** The answer has the document exactly when it is still live at the re-read, and is null, or a
      panic if metadata was extracted, exactly when it was deleted in the meantime. */
  lemma AnswerIsNullExactlyWhenDeleted(h: Hashes, s: State, logs: Logs, r: RequestId, extracted: bool)
    requires Inv(h, s, logs) && Enabled(h, s, Reread(r, true, extracted))
    ensures var reply, q := ReplyAt(s, Reread(r, true, extracted)), s.requests[r];
            && (reply == Some(Body(None)) || reply == Some(Panicked) <==> !Live(s.tables, q.at.document))
            && (reply == Some(Panicked) <==> !Live(s.tables, q.at.document) && extracted && FileOf(q.op).Some?)
  {
  }

  /** An update or restore that is answered with a document has been appended: the answer carries
      the content that the request wrote, and that is the last entry of the log. */
  lemma AnswerWithABodyIsTheLastEntry(h: Hashes, s: State, logs: Logs, r: RequestId, extracted: bool)
    requires Inv(h, s, logs) && Enabled(h, s, Reread(r, true, extracted)) && s.requests[r].op.OnDocument()
    requires ReplyAt(s, Reread(r, true, extracted)).value.Body? && ReplyAt(s, Reread(r, true, extracted)).value.row.Some?
    ensures var q := s.requests[r];
            var row := ReplyAt(s, Reread(r, true, extracted)).value.row.value;
            && q.op.document in logs && |logs[q.op.document]| == row.version
            && row.content == q.at.content == logs[q.op.document][row.version - 1]
  {
    var q := s.requests[r];
    assert RequestFits(h, s.tables, logs, q);
    assert Records(s.tables, q.op.document, logs[q.op.document]);
  }

  /** A run of API events in which an update is overtaken by a delete: the UPDATE ends as done and
      changes nothing, and the answer is null, or a panic when metadata was extracted. */
  lemma OvertakenUpdateIsAnsweredWithNull(h: Hashes) returns (s: State, s': State)
    ensures Reached(h, API, s) && Enabled(h, s, Write(2, Done)) && s' == Apply(h, s, Write(2, Done))
    ensures s.requests.Keys == {2} && s.requests[2].op == Update("d", "", Some(NEW_FILE))
    ensures s'.tables == s.tables && forall logs :: LogsAfter(s, logs, Write(2, Done)) == logs
    ensures Reached(h, API, s') && Enabled(h, s', Reread(2, true, false)) && Enabled(h, s', Reread(2, true, true))
    ensures ReplyAt(s', Reread(2, true, false)) == Some(Body(None))
    ensures ReplyAt(s', Reread(2, true, true)) == Some(Panicked)
  {
    s := OvertakenByDeleteReached(h);
    s' := ReachedNext(h, API, s, Write(2, Done));
  }
}
