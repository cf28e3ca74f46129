/** The `Project` table as the create, get-by-id and delete handlers of
    server/src/routes/projectRoutes.js change it, and the background task
    of POST / as the loop it is. Rows are kept in insertion order, and an
    UPDATE leaves a row in its place; the list handler reads this order as
    the scan order, which PostgreSQL itself does not fix. */
module Store {
  import opened Common
  import opened Missions
  import opened Enrichment

  const TitleRequired := ApiError(400, "Title required")
  const NotFound := ApiError(404, "Not found")
  const DeleteFailed := ApiError(500, "Delete failed")

  /** The `message` of a successful DELETE. */
  const Deleted := "Deleted"

  /** What the create handler as written throws at its first statement
      after reading the body (line 146). */
  const UnboundAiResponse := "ReferenceError: aiResponse is not defined"

  /** What a POST does: sends a reply, or throws before sending one. */
  datatype PostReply = Responded(result: Result<Mission>) | Threw(message: string)

  /** The primary key: no two rows share an id. */
  predicate UniqueIds(rows: seq<Mission>) {
    forall i, j :: 0 <= i < j < |rows| ==> rows[i].id != rows[j].id
  }

  /** The table's invariant: unique ids below the next id to hand out, and
      every row in one of the states the handlers leave it in. */
  predicate Consistent(rows: seq<Mission>, nextId: MissionId) {
    && UniqueIds(rows)
    && forall m :: m in rows ==> m.id < nextId && WellFormed(m)
  }

  /** `findUnique({ where: { id, userId } })` (lines 132-135): the row with
      that id if the requester owns it. */
  function Lookup(rows: seq<Mission>, owner: UserId, id: MissionId): (r: Result<Mission>)
    ensures r.Ok? ==> r.value in rows && r.value.id == id && r.value.owner == owner
    ensures r.Err? ==> r.error == NotFound && forall m :: m in rows ==> !(m.id == id && m.owner == owner)
  {
    if rows == [] then Err(NotFound)
    else if rows[0].id == id && rows[0].owner == owner then Ok(rows[0])
    else Lookup(rows[1..], owner, id)
  }

  /** `UPDATE ... WHERE id = id`: the write lands on the row with that id;
      no row with that id means no change. */
  function UpdateRow(rows: seq<Mission>, id: MissionId, write: Option<Terminal>): (r: seq<Mission>)
    ensures |r| == |rows|
    ensures forall i :: 0 <= i < |rows| ==>
      r[i] == if rows[i].id == id then ApplyWrite(rows[i], write) else rows[i]
  {
    seq(|rows|, i requires 0 <= i < |rows| => if rows[i].id == id then ApplyWrite(rows[i], write) else rows[i])
  }

  /** `delete({ where: { id, userId } })`: the rows other than the
      requester's row with that id, in their order. */
  function Without(rows: seq<Mission>, owner: UserId, id: MissionId): (r: seq<Mission>)
    ensures forall m :: m in r <==> m in rows && !(m.id == id && m.owner == owner)
    ensures |r| <= |rows|
  {
    if rows == [] then []
    else if rows[0].id == id && rows[0].owner == owner then Without(rows[1..], owner, id)
    else [rows[0]] + Without(rows[1..], owner, id)
  }

  // ---------------------------------------------------------------------
  // Properties of the table operations

  /** With unique ids, the lookup returns the row with the id when the
      requester owns it, and "Not found" when another user does. */
  lemma {:induction false} LookupIsOwnerScoped(rows: seq<Mission>, owner: UserId, m: Mission)
    requires UniqueIds(rows) && m in rows
    ensures Lookup(rows, owner, m.id) == if m.owner == owner then Ok(m) else Err(NotFound)
    decreases |rows|
  {
    if rows[0] != m {
      assert m in rows[1..];
      var k :| 0 <= k < |rows[1..]| && rows[1..][k] == m;
      assert rows[k + 1] == m;
      assert rows[0].id != m.id;
      LookupIsOwnerScoped(rows[1..], owner, m);
    }
  }

  /** With unique ids, deleting the requester's row with an id removes that
      one row and keeps every other row in its place. */
  lemma {:induction false} WithoutRemovesOneRow(rows: seq<Mission>, i: nat)
    requires UniqueIds(rows) && i < |rows|
    ensures Without(rows, rows[i].owner, rows[i].id) == rows[..i] + rows[i + 1..]
    decreases |rows|
  {
    var m := rows[i];
    UniqueTail(rows);
    if i == 0 {
      WithoutNothing(rows[1..], m.owner, m.id);
      assert rows[..0] + rows[1..] == rows[1..];
    } else {
      assert rows[1..][i - 1] == m;
      WithoutRemovesOneRow(rows[1..], i - 1);
      assert rows[0].id != m.id;
      assert Without(rows, m.owner, m.id) == [rows[0]] + Without(rows[1..], m.owner, m.id);
      DropFromTail(rows, i);
    }
  }

  /** Dropping row i > 0 is keeping the first row and dropping row i - 1 of the rest. */
  lemma DropFromTail(rows: seq<Mission>, i: nat)
    requires 0 < i < |rows|
    ensures rows[..i] + rows[i + 1..] == [rows[0]] + (rows[1..][..i - 1] + rows[1..][i..])
  {
    assert rows[..i] == [rows[0]] + rows[1..][..i - 1];
    assert rows[i + 1..] == rows[1..][i..];
  }

  /** The rows left after dropping row i, by position. */
  lemma DropAt(rows: seq<Mission>, i: nat)
    requires i < |rows|
    ensures var r := rows[..i] + rows[i + 1..];
      && |r| == |rows| - 1
      && (forall k :: 0 <= k < i ==> r[k] == rows[k])
      && (forall k :: i <= k < |r| ==> r[k] == rows[k + 1])
  {
  }

  /** The rows after the first of a table with unique ids have unique ids,
      none of them the first row's. */
  lemma UniqueTail(rows: seq<Mission>)
    requires UniqueIds(rows) && rows != []
    ensures UniqueIds(rows[1..])
    ensures forall m :: m in rows[1..] ==> m.id != rows[0].id
  {
    var tail := rows[1..];
    forall i, j | 0 <= i < j < |tail| ensures tail[i].id != tail[j].id {
      assert tail[i] == rows[i + 1] && tail[j] == rows[j + 1];
    }
    forall m | m in tail ensures m.id != rows[0].id {
      var k :| 0 <= k < |tail| && tail[k] == m;
      assert rows[k + 1] == m;
    }
  }

  /** Deleting a row of a consistent table leaves a consistent table one
      row shorter in which no row carries the deleted id. */
  lemma DeleteRemovesId(rows: seq<Mission>, nextId: MissionId, i: nat)
    requires Consistent(rows, nextId) && i < |rows|
    ensures var r := Without(rows, rows[i].owner, rows[i].id);
      && Consistent(r, nextId)
      && |r| == |rows| - 1
      && forall m :: m in r ==> m.id != rows[i].id
  {
    WithoutRemovesOneRow(rows, i);
    DropAt(rows, i);
    var r := rows[..i] + rows[i + 1..];
    forall k, l | 0 <= k < l < |r| ensures r[k].id != r[l].id {
      var k' := if k < i then k else k + 1;
      var l' := if l < i then l else l + 1;
      assert r[k] == rows[k'] && r[l] == rows[l'] && k' < l';
    }
    forall m | m in r ensures m.id != rows[i].id && m in rows {
      var k :| 0 <= k < |r| && r[k] == m;
      var k' := if k < i then k else k + 1;
      assert r[k] == rows[k'] && k' != i;
      if k' < i {
        assert rows[k'].id != rows[i].id;
      } else {
        assert rows[i].id != rows[k'].id;
      }
    }
  }

  /** Deleting an id no row carries changes nothing. */
  lemma {:induction false} WithoutNothing(rows: seq<Mission>, owner: UserId, id: MissionId)
    requires forall m :: m in rows ==> m.id != id
    ensures Without(rows, owner, id) == rows
    decreases |rows|
  {
    if rows != [] {
      assert rows[0] in rows;
      WithoutNothing(rows[1..], owner, id);
      assert rows == [rows[0]] + rows[1..];
    }
  }

  /** A write that goes nowhere (no terminal write, or an id no row has)
      leaves the table as it was. */
  lemma UpdateNothing(rows: seq<Mission>, id: MissionId, write: Option<Terminal>)
    requires write.None? || forall m :: m in rows ==> m.id != id
    ensures UpdateRow(rows, id, write) == rows
  {
    var r := UpdateRow(rows, id, write);
    forall i | 0 <= i < |rows| ensures r[i] == rows[i] {
      assert rows[i] in rows;
    }
  }

  /** The terminal write keeps the table consistent when the row it lands
      on is a draft. */
  lemma UpdateKeepsConsistent(rows: seq<Mission>, nextId: MissionId, id: MissionId, t: Terminal)
    requires Consistent(rows, nextId) && TerminalFits(t)
    requires forall m :: m in rows && m.id == id ==> m.status == Initializing
    ensures Consistent(UpdateRow(rows, id, Some(t)), nextId)
  {
    var r := UpdateRow(rows, id, Some(t));
    forall m | m in r ensures m.id < nextId && WellFormed(m) {
      var i :| 0 <= i < |r| && r[i] == m;
      assert rows[i] in rows;
      if rows[i].id == id {
        WriteFinishesDraft(rows[i], t);
      }
    }
  }

  /** The write for a newly inserted draft lands on that draft only. */
  lemma UpdateNewest(rows: seq<Mission>, draft: Mission, write: Option<Terminal>)
    requires forall m :: m in rows ==> m.id != draft.id
    ensures UpdateRow(rows + [draft], draft.id, write) == rows + [ApplyWrite(draft, write)]
  {
    var r := UpdateRow(rows + [draft], draft.id, write);
    forall i | 0 <= i < |rows| ensures r[i] == rows[i] {
      assert (rows + [draft])[i] == rows[i] && rows[i] in rows;
    }
  }

  /** The table. `nextId` stands for the database's id generator. */
  class MissionStore {
    var rows: seq<Mission>
    var nextId: MissionId

    ghost predicate Valid()
      reads this
    {
      Consistent(rows, nextId)
    }

    constructor()
      ensures Valid() && rows == [] && nextId == 0
    {
      rows := [];
      nextId := 0;
    }

    /** GET /:id (lines 131-139), without the notes it includes. */
    function Get(owner: UserId, id: MissionId): (r: Result<Mission>)
      reads this
      ensures r.Ok? <==> exists m :: m in rows && m.id == id && m.owner == owner
      ensures r.Ok? ==> r.value in rows && r.value.id == id && r.value.owner == owner
      ensures r.Err? ==> r.error == NotFound
    {
      Lookup(rows, owner, id)
    }

    /** The synchronous part of POST / (lines 152-166): a missing or empty
        title is refused and nothing is written; otherwise a draft is
        inserted and sent back. */
    method Create(owner: UserId, title: Option<string>, now: int) returns (r: Result<Mission>)
      requires Valid()
      modifies this
      ensures Valid()
      ensures title.None? || title.value == "" ==>
        r == Err(TitleRequired) && rows == old(rows) && nextId == old(nextId)
      ensures title.Some? && title.value != "" ==>
        && r == Ok(Draft(old(nextId), owner, title.value, now))
        && rows == old(rows) + [r.value]
        && nextId == old(nextId) + 1
    {
      if title.None? || title.value == "" {
        return Err(TitleRequired);
      }
      var draft := Draft(nextId, owner, title.value, now);
      rows := rows + [draft];
      nextId := nextId + 1;
      r := Ok(draft);
    }

    /** The `try` block of one attempt (lines 177-196): the research
        request, the embedding request, and on success the UPDATE of the
        row `id` with status, report and embedding together. An error from
        either request leaves the table untouched. */
    method RunAttempt(id: MissionId, title: string, step: AttemptScript)
      returns (calls: seq<Call>, outcome: Remote<Terminal>)
      requires Valid()
      requires forall m :: m in rows && m.id == id ==> m.status == Initializing
      modifies this
      ensures Valid() && nextId == old(nextId)
      ensures calls == TryAttempt(title, step).calls && outcome == TryAttempt(title, step).outcome
      ensures outcome.Thrown? ==> rows == old(rows)
      ensures outcome.Reply? ==> rows == UpdateRow(old(rows), id, Some(outcome.value))
    {
      calls := [StartResearch(title)];
      match step.research {
        case Thrown(message) =>
          outcome := Thrown(message);
        case Reply(reply) =>
          calls := calls + [CreateVector(EmbedText(title, reply.report))];
          match step.vector {
            case Thrown(message) =>
              outcome := Thrown(message);
            case Reply(vector) =>
              var write := Finished(FinalStatus(reply.aiStatus), reply.report, vector);
              UpdateKeepsConsistent(rows, nextId, id, write);
              rows := UpdateRow(rows, id, Some(write));
              outcome := Reply(write);
          }
      }
    }

    /** The final failure update (lines 211-217) of the row `id`: status
        `Failed` and the report with the error message; the embedding is
        left as it is. */
    method MarkFailed(id: MissionId, message: string) returns (report: string)
      requires Valid()
      requires forall m :: m in rows && m.id == id ==> m.status == Initializing
      modifies this
      ensures Valid() && nextId == old(nextId)
      ensures report == FailureReport(message)
      ensures rows == UpdateRow(old(rows), id, Some(GaveUp(report)))
    {
      report := RateLimitNotice + message;
      UpdateKeepsConsistent(rows, nextId, id, GaveUp(report));
      rows := UpdateRow(rows, id, Some(GaveUp(report)));
    }

    /** The background task (lines 168-221) for the row `id`, run to its
        end: at most three attempts, a wait of `attempt * 2000` ms after
        each failed one but the last, and one terminal write. */
    method RunEnrichment(id: MissionId, title: string, aiServiceUrl: string, script: nat -> AttemptScript)
      returns (run: Run)
      requires Valid()
      requires forall m :: m in rows && m.id == id ==> m.status == Initializing
      modifies this
      ensures Valid() && nextId == old(nextId)
      ensures run == BackgroundTask(title, aiServiceUrl, script)
      ensures rows == UpdateRow(old(rows), id, run.write)
    {
      UpdateNothing(rows, id, None);
      if aiServiceUrl == "" {
        return Run(0, [], [], None);
      }
      var attempt := 0;
      var success := false;
      var calls: seq<Call> := [];
      var waits: seq<nat> := [];
      var write: Option<Terminal> := None;
      while attempt < MaxRetries && !success
        invariant 0 <= attempt <= MaxRetries
        invariant Valid() && nextId == old(nextId)
        invariant rows == UpdateRow(old(rows), id, write)
        invariant write.None? ==> rows == old(rows)
        invariant !success && attempt < MaxRetries ==>
          write.None? && BackgroundTask(title, aiServiceUrl, script) == Prefixed(calls, waits, RunFrom(title, script, attempt))
        invariant success || attempt == MaxRetries ==>
          BackgroundTask(title, aiServiceUrl, script) == Run(attempt, calls, waits, write)
        decreases MaxRetries - attempt
      {
        RunFromStep(title, script, attempt, calls, waits);
        attempt := attempt + 1;
        var attemptCalls, outcome := RunAttempt(id, title, script(attempt - 1));
        calls := calls + attemptCalls;
        match outcome {
          case Reply(t) =>
            write := Some(t);
            success := true;
          case Thrown(message) =>
            if attempt < MaxRetries {
              waits := waits + [Backoff(attempt)];
            } else {
              var report := MarkFailed(id, message);
              write := Some(GaveUp(report));
            }
        }
      }
      run := Run(attempt, calls, waits, write);
    }

    /** POST / with its background task run to its end. The reply is the
        draft, sent before the background task starts; `finalStatus` is derived from
        the research reply of the attempt that succeeded. */
    method Post(owner: UserId, title: Option<string>, now: int, aiServiceUrl: string,
                script: nat -> AttemptScript)
      returns (reply: PostReply, run: Run)
      requires Valid()
      modifies this
      ensures Valid()
      ensures title.None? || title.value == "" ==>
        && reply == Responded(Err(TitleRequired))
        && run == Run(0, [], [], None)
        && rows == old(rows) && nextId == old(nextId)
      ensures title.Some? && title.value != "" ==>
        var draft := Draft(old(nextId), owner, title.value, now);
        && reply == Responded(Ok(draft))
        && run == BackgroundTask(title.value, aiServiceUrl, script)
        && rows == old(rows) + [ApplyWrite(draft, run.write)]
        && nextId == old(nextId) + 1
    {
      var created := Create(owner, title, now);
      reply := Responded(created);
      if created.Err? {
        return reply, Run(0, [], [], None);
      }
      var draft := created.value;
      ghost var earlier := rows[..|rows| - 1];
      assert rows == earlier + [draft];
      assert forall m :: m in earlier ==> m in old(rows);
      run := RunEnrichment(draft.id, title.value, aiServiceUrl, script);
      UpdateNewest(earlier, draft, run.write);
    }

    /** POST / as lines 146-150 have it: `aiResponse` is read before any
        binding of that name is in scope, so the handler throws before it
        checks the title, writes a row or starts the background task. */
    method PostAsWritten(owner: UserId, title: Option<string>, now: int, aiServiceUrl: string,
                         script: nat -> AttemptScript)
      returns (reply: PostReply)
      ensures reply.Threw? && reply.message == UnboundAiResponse
    {
      reply := Threw(UnboundAiResponse);
    }

    /** DELETE /:id (lines 244-253): the requester's row with that id is
        removed; when there is none the delete throws and the reply is
        "Delete failed". */
    method Delete(owner: UserId, id: MissionId) returns (r: Result<string>)
      requires Valid()
      modifies this
      ensures Valid() && nextId == old(nextId)
      ensures r.Ok? <==> old(Get(owner, id)).Ok?
      ensures r.Err? ==> r.error == DeleteFailed && rows == old(rows)
      ensures r.Ok? ==>
        && r.value == Deleted
        && rows == Without(old(rows), owner, id)
        && |rows| == |old(rows)| - 1
        && (forall m :: m in rows ==> m.id != id)
        && Get(owner, id) == Err(NotFound)
    {
      var found := Lookup(rows, owner, id);
      if found.Err? {
        return Err(DeleteFailed);
      }
      var i :| 0 <= i < |rows| && rows[i] == found.value;
      DeleteRemovesId(rows, nextId, i);
      rows := Without(rows, owner, id);
      r := Ok(Deleted);
    }
  }
}
