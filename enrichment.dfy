/** What the background task of POST / (server/src/routes/projectRoutes.js:168-221)
    does for one mission: up to three attempts, each asking the AI service for
    a research report and then for an embedding of it, with a linear backoff
    between failed attempts and a single terminal write. The service's answers
    are given per attempt as a script; the calls the background task makes and the waits
    it sleeps are recorded so that they can be stated about. */
module Enrichment {
  import opened Common
  import opened Text
  import opened Missions

  const MaxRetries := 3
  const BackoffStepMs := 2000

  /** Only this many characters of the report go into the embedding text. */
  const ReportPrefixLength := 500

  /** The research reply's `status` that the create handler maps to
      "Demo Mode" (line 150). */
  const DemoMarker := "demo_mode"

  /** The fixed text the final failure stores ahead of the last error's message. */
  const RateLimitNotice := "System is currently experiencing high traffic (Rate Limit). Please try again later.\n\nError details: "

  /** The answer of one remote call: a reply, or the message of the error it
      threw (a network failure, a 429 or a 5xx, or a reply missing the field
      the background task reads next). */
  datatype Remote<+T> = Reply(value: T) | Thrown(message: string)

  /** The body of a /start-research reply: `report` and the optional `status`. */
  datatype ResearchReply = ResearchReply(report: string, aiStatus: Option<string>)

  /** What the service answers to the two calls of one attempt. */
  datatype AttemptScript = AttemptScript(research: Remote<ResearchReply>, vector: Remote<Vector>)

  /** A request the background task sends: /start-research with the prompt, or
      /create-vector with the text to embed. */
  datatype Call = StartResearch(prompt: string) | CreateVector(text: string)

  /** The one write that ends the loop: the success UPDATE of status, report
      and embedding together, or the final failure update of status and
      report. */
  datatype Terminal =
    | Finished(status: string, report: string, embedding: Vector)
    | GaveUp(report: string)

  /** One attempt: the calls it made, and either the write it would end the
      task with or the message of the error that ended it. */
  datatype Attempt = Attempt(calls: seq<Call>, outcome: Remote<Terminal>)

  /** A whole run: the final value of `attempt`, every call made, every
      backoff slept (in milliseconds), and the terminal write if there was one. */
  datatype Run = Run(attempts: nat, calls: seq<Call>, waits: seq<nat>, write: Option<Terminal>)

  /** The text sent to /create-vector: the title, ": ", and the first 500
      characters of the report. */
  function EmbedText(title: string, report: string): (text: string)
    ensures |text| == |title| + 2 + Min(ReportPrefixLength, |report|)
    ensures text[..|title| + 2] == title + ": "
    ensures text[|title| + 2..] <= report
    ensures |report| <= ReportPrefixLength ==> text == title + ": " + report
  {
    title + ": " + report[..Min(ReportPrefixLength, |report|)]
  }

  /** The status a successful attempt writes. */
  function FinalStatus(aiStatus: Option<string>): (status: string)
    ensures status == DemoMode <==> aiStatus == Some(DemoMarker)
    ensures status == Completed <==> aiStatus != Some(DemoMarker)
  {
    if aiStatus == Some(DemoMarker) then DemoMode else Completed
  }

  /** The report of the final failure: the notice, then the last error's message. */
  function FailureReport(message: string): (report: string)
    ensures Contains(report, message)
    ensures StartsWith(report, RateLimitNotice)
  {
    ContainsSuffix(RateLimitNotice, message);
    RateLimitNotice + message
  }

  /** The body of the `try` block (lines 177-196): research, then embedding,
      then the success write. The embedding call is made only when the
      research call answered. */
  function TryAttempt(title: string, step: AttemptScript): (a: Attempt)
    ensures a.outcome.Thrown? <==> step.research.Thrown? || step.vector.Thrown?
    ensures 1 <= |a.calls| <= 2 && a.calls[0] == StartResearch(title)
    ensures |a.calls| == 2 <==> step.research.Reply?
    ensures step.research.Reply? ==> a.calls[1] == CreateVector(EmbedText(title, step.research.value.report))
    ensures step.research.Thrown? ==> a.outcome == Thrown(step.research.message)
    ensures step.research.Reply? && step.vector.Thrown? ==> a.outcome == Thrown(step.vector.message)
    ensures a.outcome.Reply? ==>
      var reply := step.research.value;
      a.outcome.value == Finished(FinalStatus(reply.aiStatus), reply.report, step.vector.value)
  {
    match step.research
    case Thrown(message) => Attempt([StartResearch(title)], Thrown(message))
    case Reply(reply) =>
      var calls := [StartResearch(title), CreateVector(EmbedText(title, reply.report))];
      match step.vector
      case Thrown(message) => Attempt(calls, Thrown(message))
      case Reply(vector) => Attempt(calls, Reply(Finished(FinalStatus(reply.aiStatus), reply.report, vector)))
  }

  /** The wait after failed attempt `attempt` (lines 203-205). */
  function Backoff(attempt: nat): (ms: nat)
    ensures attempt >= 1 ==> ms >= BackoffStepMs
    ensures attempt < MaxRetries ==> ms < MaxRetries * BackoffStepMs
  {
    attempt * BackoffStepMs
  }

  /** The run from the point where `done` attempts have failed and the
      loop condition is checked again. */
  function RunFrom(title: string, script: nat -> AttemptScript, done: nat): (r: Run)
    requires done < MaxRetries
    ensures done < r.attempts <= MaxRetries
    ensures |r.waits| == r.attempts - done - 1
    ensures r.write.Some?
    decreases MaxRetries - done
  {
    var a := TryAttempt(title, script(done));
    var attempt := done + 1;
    if a.outcome.Reply? then Run(attempt, a.calls, [], Some(a.outcome.value))
    else if attempt < MaxRetries then
      var rest := RunFrom(title, script, attempt);
      Run(rest.attempts, a.calls + rest.calls, [Backoff(attempt)] + rest.waits, rest.write)
    else Run(attempt, a.calls, [], Some(GaveUp(FailureReport(a.outcome.message))))
  }

  /** The background task of one mission. `aiServiceUrl` is "" when the
      service is not configured; then the background task returns at once. */
  function BackgroundTask(title: string, aiServiceUrl: string, script: nat -> AttemptScript): (r: Run)
    ensures aiServiceUrl == "" <==> r.attempts == 0
    ensures aiServiceUrl == "" ==> r == Run(0, [], [], None)
    ensures aiServiceUrl != "" ==> 1 <= r.attempts <= MaxRetries && r.write.Some?
  {
    if aiServiceUrl == "" then Run(0, [], [], None) else RunFrom(title, script, 0)
  }

  /** `calls` and `waits` of a run that started after earlier attempts had
      made `calls` and slept `waits`. */
  function Prefixed(calls: seq<Call>, waits: seq<nat>, r: Run): (p: Run)
    ensures p.attempts == r.attempts && p.write == r.write
    ensures |p.calls| == |calls| + |r.calls| && |p.waits| == |waits| + |r.waits|
    ensures p.calls[..|calls|] == calls && p.waits[..|waits|] == waits
    ensures p.calls[|calls|..] == r.calls && p.waits[|waits|..] == r.waits
  {
    Run(r.attempts, calls + r.calls, waits + r.waits, r.write)
  }

  /** One more turn of the loop, seen from the run that remains: a failed
      attempt before the last is followed by its backoff and the rest of
      the run; a successful attempt ends the run with its write; a failed
      last attempt ends it with the failure report. */
  lemma RunFromStep(title: string, script: nat -> AttemptScript, done: nat, calls: seq<Call>, waits: seq<nat>)
    requires done < MaxRetries
    ensures var a := TryAttempt(title, script(done));
      var p := Prefixed(calls, waits, RunFrom(title, script, done));
      && (a.outcome.Reply? ==> p == Run(done + 1, calls + a.calls, waits, Some(a.outcome.value)))
      && (a.outcome.Thrown? && done + 1 < MaxRetries ==>
            p == Prefixed(calls + a.calls, waits + [Backoff(done + 1)], RunFrom(title, script, done + 1)))
      && (a.outcome.Thrown? && done + 1 == MaxRetries ==>
            p == Run(MaxRetries, calls + a.calls, waits, Some(GaveUp(FailureReport(a.outcome.message)))))
  {
    var a := TryAttempt(title, script(done));
    if a.outcome.Thrown? && done + 1 < MaxRetries {
      var rest := RunFrom(title, script, done + 1);
      assert calls + (a.calls + rest.calls) == (calls + a.calls) + rest.calls;
      assert waits + ([Backoff(done + 1)] + rest.waits) == (waits + [Backoff(done + 1)]) + rest.waits;
    } else {
      assert waits + [] == waits;
    }
  }

  /** The number of /start-research requests among `calls`. */
  function Researches(calls: seq<Call>): nat {
    if calls == [] then 0
    else (if calls[0].StartResearch? then 1 else 0) + Researches(calls[1..])
  }

  lemma {:induction false} ResearchesAppend(xs: seq<Call>, ys: seq<Call>)
    ensures Researches(xs + ys) == Researches(xs) + Researches(ys)
    decreases |xs|
  {
    if xs == [] {
      assert xs + ys == ys;
    } else {
      assert (xs + ys)[1..] == xs[1..] + ys;
      ResearchesAppend(xs[1..], ys);
    }
  }

  /** A status, report and embedding a terminal write may leave. */
  predicate TerminalFits(t: Terminal) {
    t.Finished? ==> t.status == Completed || t.status == DemoMode
  }

  /** The row after the terminal write, or unchanged when there was none.
      The failure update leaves the embedding as it was. */
  function ApplyWrite(m: Mission, write: Option<Terminal>): (r: Mission)
    ensures r.id == m.id && r.owner == m.owner && r.title == m.title && r.createdAt == m.createdAt
    ensures write.None? ==> r == m
    ensures write.Some? ==> r.report == Some(write.value.report)
    ensures write.Some? && write.value.Finished? ==>
      r.status == write.value.status && r.embedding == Some(write.value.embedding)
    ensures write.Some? && write.value.GaveUp? ==> r.status == Failed && r.embedding == m.embedding
  {
    match write
    case None => m
    case Some(Finished(status, report, embedding)) =>
      m.(status := status, report := Some(report), embedding := Some(embedding))
    case Some(GaveUp(report)) => m.(status := Failed, report := Some(report))
  }

  /** A terminal write that fits turns a draft into a finished row: a
      report in every case, an embedding only with "Completed" or "Demo Mode". */
  lemma WriteFinishesDraft(m: Mission, t: Terminal)
    requires WellFormed(m) && m.status == Initializing && TerminalFits(t)
    ensures var r := ApplyWrite(m, Some(t));
      && WellFormed(r)
      && r.status in {Completed, DemoMode, Failed}
      && r.report.Some?
      && (r.embedding.Some? <==> t.Finished?)
  {
  }

  // ---------------------------------------------------------------------
  // Properties of the retry loop

  /** Every attempt before the last one failed, and the run wrote a success
      exactly when its last attempt succeeded, with that attempt's result;
      otherwise it gave up on the third attempt with the last error's
      message. So the loop stops at the first success and never goes beyond
      three attempts. */
  lemma {:induction false} StopsAtFirstSuccess(title: string, script: nat -> AttemptScript, done: nat)
    requires done < MaxRetries
    ensures var r := RunFrom(title, script, done);
      var last := TryAttempt(title, script(r.attempts - 1));
      && (forall k :: done <= k < r.attempts - 1 ==> TryAttempt(title, script(k)).outcome.Thrown?)
      && (last.outcome.Reply? ==> r.write == Some(last.outcome.value))
      && (last.outcome.Thrown? ==>
            r.attempts == MaxRetries && r.write == Some(GaveUp(FailureReport(last.outcome.message))))
    decreases MaxRetries - done
  {
    var a := TryAttempt(title, script(done));
    if a.outcome.Thrown? && done + 1 < MaxRetries {
      StopsAtFirstSuccess(title, script, done + 1);
    }
  }

  /** The waits are 2000 ms after the first failed attempt and 4000 ms after
      the second, one after every failed attempt but the third. */
  lemma {:induction false} LinearBackoff(title: string, script: nat -> AttemptScript, done: nat)
    requires done < MaxRetries
    ensures var r := RunFrom(title, script, done);
      forall i :: 0 <= i < |r.waits| ==> r.waits[i] == (done + i + 1) * BackoffStepMs
    decreases MaxRetries - done
  {
    var a := TryAttempt(title, script(done));
    if a.outcome.Thrown? && done + 1 < MaxRetries {
      LinearBackoff(title, script, done + 1);
      var r := RunFrom(title, script, done);
      var rest := RunFrom(title, script, done + 1);
      forall i | 0 <= i < |r.waits| ensures r.waits[i] == (done + i + 1) * BackoffStepMs {
        if i > 0 {
          assert r.waits[i] == rest.waits[i - 1];
        }
      }
    }
  }

  /** Each attempt makes exactly one research request, so a run makes one
      per attempt. */
  lemma {:induction false} OneResearchPerAttempt(title: string, script: nat -> AttemptScript, done: nat)
    requires done < MaxRetries
    ensures var r := RunFrom(title, script, done);
      Researches(r.calls) == r.attempts - done
    decreases MaxRetries - done
  {
    var a := TryAttempt(title, script(done));
    if |a.calls| == 2 {
      assert a.calls[1..][1..] == [];
      assert Researches(a.calls[1..]) == 0;
    } else {
      assert a.calls[1..] == [];
    }
    assert Researches(a.calls) == 1;
    if a.outcome.Thrown? && done + 1 < MaxRetries {
      OneResearchPerAttempt(title, script, done + 1);
      ResearchesAppend(a.calls, RunFrom(title, script, done + 1).calls);
    }
  }

  /** A successful run stores the report and the vector of its successful
      attempt, with "Demo Mode" exactly when that attempt's research reply
      carried "demo_mode", and its last request embedded the title and the
      start of that report. A run that gave up stores a report carrying the
      last error's message. Either write leaves the row in a finished state. */
  lemma {:induction false} TerminalWrite(title: string, script: nat -> AttemptScript, done: nat)
    requires done < MaxRetries
    ensures var r := RunFrom(title, script, done);
      var step := script(r.attempts - 1);
      && TerminalFits(r.write.value)
      && (r.write.value.Finished? ==>
            && step.research.Reply? && step.vector.Reply?
            && r.write.value.report == step.research.value.report
            && r.write.value.embedding == step.vector.value
            && (r.write.value.status == DemoMode <==> step.research.value.aiStatus == Some(DemoMarker))
            && r.calls[|r.calls| - 1] == CreateVector(EmbedText(title, step.research.value.report)))
      && (r.write.value.GaveUp? ==>
            && r.attempts == MaxRetries
            && (step.research.Thrown? ==> Contains(r.write.value.report, step.research.message))
            && (step.research.Reply? ==> Contains(r.write.value.report, step.vector.message)))
    decreases MaxRetries - done
  {
    var a := TryAttempt(title, script(done));
    if a.outcome.Thrown? && done + 1 < MaxRetries {
      TerminalWrite(title, script, done + 1);
      var rest := RunFrom(title, script, done + 1);
      assert RunFrom(title, script, done).calls == a.calls + rest.calls;
    }
  }

  /** With no service configured nothing is requested, nothing is waited
      for and nothing is written: the draft stays "Initializing...". */
  lemma NoServiceNoTask(title: string, script: nat -> AttemptScript)
    ensures BackgroundTask(title, "", script) == Run(0, [], [], None)
  {
  }

  /** Every failure: three research requests, waits of 2 and 4 seconds (six
      in all), and the failure report with the last error. */
  lemma {:induction false} EveryAttemptFails(title: string, aiServiceUrl: string, script: nat -> AttemptScript)
    requires aiServiceUrl != ""
    requires forall k: nat :: k < MaxRetries ==> script(k).research.Thrown?
    ensures var r := BackgroundTask(title, aiServiceUrl, script);
      && r.attempts == MaxRetries
      && r.waits == [2000, 4000]
      && r.calls == [StartResearch(title), StartResearch(title), StartResearch(title)]
      && r.write == Some(GaveUp(FailureReport(script(2).research.message)))
  {
    assert script(0).research.Thrown? && script(1).research.Thrown? && script(2).research.Thrown?;
  }

  /** Scenario: the first research reply carries "demo_mode" and the
      embedding succeeds, so the run ends after one attempt with "Demo Mode". */
  lemma DemoReplyOnFirstAttempt(title: string, aiServiceUrl: string, script: nat -> AttemptScript,
                                report: string, vector: Vector)
    requires aiServiceUrl != ""
    requires script(0) == AttemptScript(Reply(ResearchReply(report, Some(DemoMarker))), Reply(vector))
    ensures BackgroundTask(title, aiServiceUrl, script)
         == Run(1, [StartResearch(title), CreateVector(EmbedText(title, report))], [],
                Some(Finished(DemoMode, report, vector)))
  {
  }

  /** Scenario: two rate-limited research calls, then success: three
      attempts, waits of 2 and 4 seconds (six in all) and "Completed". */
  lemma RateLimitedTwiceThenCompleted(title: string, aiServiceUrl: string, script: nat -> AttemptScript,
                                      report: string, vector: Vector)
    requires aiServiceUrl != ""
    requires script(0).research.Thrown? && script(1).research.Thrown?
    requires script(2) == AttemptScript(Reply(ResearchReply(report, None)), Reply(vector))
    ensures var r := BackgroundTask(title, aiServiceUrl, script);
      && r.attempts == 3
      && r.waits == [2000, 4000] && r.waits[0] + r.waits[1] == 6000
      && r.write == Some(Finished(Completed, report, vector))
  {
  }
}
