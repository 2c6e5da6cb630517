/** The retrieval pipeline of RAGService: the log index, top-k retrieval over
    per-log similarity scores, each Grader decision (grade_relevance), and the
    orchestration retrieve -> grade -> short-circuit or render -> answer.
    Similarity scores and the outcomes of the remote inference calls are
    inputs, so every step is a deterministic function of them. */
module RagService {
  import opened Models
  import opened Seqs
  import opened Text

  /** generate_response retrieves this many candidates (top_k=5). */
  const RetrievalDepth: nat := 5

  const NoRelevantAnswer: string :=
    "I found some logs, but after double-checking, none of them seemed directly relevant to your specific question."

  /** Default for a generation reply without a "response" field. */
  const NoContentAnswer: string := "No response content."

  const ConnectFailurePrefix: string := "Failed to connect to Ollama: "

  // ---------------------------------------------------------------- rendering

  /** The text embedded for one log: "{level}: {message}". */
  function RetrievalText(e: LogEntry): string
  {
    e.level + ": " + e.message
  }

  /** The retrieval text leaves the source out: it is metadata only. */
  lemma RetrievalTextIgnoresSource(e: LogEntry, source: Option<string>)
    ensures RetrievalText(e.(source := source)) == RetrievalText(e)
  {
  }

  /** [f"{log.level}: {log.message}" for log in logs]: one text per log, in log order. */
  function RetrievalTexts(logs: seq<LogEntry>): (texts: seq<string>)
    ensures |texts| == |logs|
    ensures forall i :: 0 <= i < |logs| ==> texts[i] == RetrievalText(logs[i])
  {
    if logs == [] then [] else [RetrievalText(logs[0])] + RetrievalTexts(logs[1..])
  }

  /** Logs that differ only in their sources are indexed with the same texts. */
  lemma RetrievalTextsIgnoreSources(a: seq<LogEntry>, b: seq<LogEntry>)
    requires |a| == |b|
    requires forall i :: 0 <= i < |a| ==> a[i] == b[i].(source := a[i].source)
    ensures RetrievalTexts(a) == RetrievalTexts(b)
  {
    assert forall i :: 0 <= i < |a| ==> RetrievalText(a[i]) == RetrievalText(b[i]);
  }

  /** The line shown to each Grader call and to the generator: "[{timestamp}] {level}: {message}". */
  function RenderLine(e: LogEntry): string
  {
    "[" + IntToString(e.timestamp) + "] " + e.level + ": " + e.message
  }

  function RenderLines(logs: seq<LogEntry>): (lines: seq<string>)
    ensures |lines| == |logs|
    ensures forall i :: 0 <= i < |logs| ==> lines[i] == RenderLine(logs[i])
  {
    if logs == [] then [] else [RenderLine(logs[0])] + RenderLines(logs[1..])
  }

  /** The context block handed to the generator. */
  function ContextBlock(logs: seq<LogEntry>): string
  {
    JoinLines(RenderLines(logs))
  }

  // ---------------------------------------------------------------- top-k

  /** The length of `xs[:top_k]` for a list of n elements (Python slicing:
      a negative bound counts from the end). */
  function TakeCount(n: nat, topK: int): (r: nat)
    ensures r <= n
    ensures topK >= 0 ==> r <= topK
    ensures 0 <= topK <= n ==> r == topK
    ensures topK > n ==> r == n
    ensures topK < 0 ==> r == if n + topK >= 0 then n + topK else 0
  {
    if topK >= 0 then (if topK <= n then topK else n)
    else if n + topK >= 0 then n + topK else 0
  }

  /** ranks are distinct positions of scores, in non-increasing score order,
      and no position left out scores above any position ranked. */
  ghost predicate RankedPrefix(scores: seq<int>, ranks: seq<nat>)
  {
    (forall i :: 0 <= i < |ranks| ==> ranks[i] < |scores|)
    && (forall i, j :: 0 <= i < j < |ranks| ==> ranks[i] != ranks[j])
    && (forall i, j :: 0 <= i < j < |ranks| ==> scores[ranks[i]] >= scores[ranks[j]])
    && (forall k, i :: 0 <= k < |scores| && k !in ranks && 0 <= i < |ranks| ==> scores[k] <= scores[ranks[i]])
  }

  /** Position in rest of a highest-scoring index. */
  method BestPosition(scores: seq<int>, rest: seq<nat>) returns (p: nat)
    requires rest != []
    requires forall j :: 0 <= j < |rest| ==> rest[j] < |scores|
    ensures p < |rest|
    ensures forall j :: 0 <= j < |rest| ==> scores[rest[j]] <= scores[rest[p]]
  {
    p := 0;
    var q := 1;
    while q < |rest|
      invariant 0 <= p < |rest|
      invariant 1 <= q <= |rest|
      invariant forall j :: 0 <= j < q ==> scores[rest[j]] <= scores[rest[p]]
    {
      if scores[rest[q]] > scores[rest[p]] {
        p := q;
      }
      q := q + 1;
    }
  }

  /** ranks and rest together hold each position below n exactly once. */
  ghost predicate Partition(n: nat, ranks: seq<nat>, rest: seq<nat>)
  {
    |ranks| + |rest| == n
    && (forall i :: 0 <= i < |ranks| ==> ranks[i] < n)
    && (forall j :: 0 <= j < |rest| ==> rest[j] < n)
    && (forall i, j :: 0 <= i < j < |ranks| ==> ranks[i] != ranks[j])
    && (forall a, b :: 0 <= a < b < |rest| ==> rest[a] != rest[b])
    && (forall j :: 0 <= j < |rest| ==> rest[j] !in ranks)
    && (forall k :: 0 <= k < n ==> k in ranks || k in rest)
  }

  /** ranks is in non-increasing score order and nothing in rest scores
      above anything in ranks. */
  ghost predicate Dominates(scores: seq<int>, ranks: seq<nat>, rest: seq<nat>)
    requires forall i :: 0 <= i < |ranks| ==> ranks[i] < |scores|
    requires forall j :: 0 <= j < |rest| ==> rest[j] < |scores|
  {
    (forall i, j :: 0 <= i < j < |ranks| ==> scores[ranks[i]] >= scores[ranks[j]])
    && (forall j, i :: 0 <= j < |rest| && 0 <= i < |ranks| ==> scores[rest[j]] <= scores[ranks[i]])
  }

  /** The state of the selection after |ranks| steps. */
  ghost predicate TopSplit(scores: seq<int>, ranks: seq<nat>, rest: seq<nat>)
  {
    Partition(|scores|, ranks, rest) && Dominates(scores, ranks, rest)
  }

  /** Nothing is selected yet: every position is still to choose from. */
  lemma TopSplitInit(scores: seq<int>)
    ensures TopSplit(scores, [], seq(|scores|, i => i))
  {
    var rest: seq<nat> := seq(|scores|, i => i);
    assert forall k :: 0 <= k < |scores| ==> rest[k] == k && k in rest;
  }

  /** Moving position rest[p] to the end of ranks keeps the partition. */
  lemma PartitionStep(n: nat, ranks: seq<nat>, rest: seq<nat>, p: nat)
    requires Partition(n, ranks, rest)
    requires p < |rest|
    ensures Partition(n, ranks + [rest[p]], rest[..p] + rest[p + 1..])
  {
    RemoveAt(rest, p);
  }

  /** Moving a best-scoring position from rest to the end of ranks keeps it dominating. */
  lemma DominatesStep(scores: seq<int>, ranks: seq<nat>, rest: seq<nat>, p: nat)
    requires forall i :: 0 <= i < |ranks| ==> ranks[i] < |scores|
    requires forall j :: 0 <= j < |rest| ==> rest[j] < |scores|
    requires Dominates(scores, ranks, rest)
    requires p < |rest|
    requires forall j :: 0 <= j < |rest| ==> scores[rest[j]] <= scores[rest[p]]
    ensures Dominates(scores, ranks + [rest[p]], rest[..p] + rest[p + 1..])
  {
    RemoveAt(rest, p);
  }

  /** Moving a best-scoring position from rest to the end of ranks keeps the split. */
  lemma TopSplitStep(scores: seq<int>, ranks: seq<nat>, rest: seq<nat>, p: nat)
    requires TopSplit(scores, ranks, rest)
    requires p < |rest|
    requires forall j :: 0 <= j < |rest| ==> scores[rest[j]] <= scores[rest[p]]
    ensures TopSplit(scores, ranks + [rest[p]], rest[..p] + rest[p + 1..])
  {
    PartitionStep(|scores|, ranks, rest, p);
    DominatesStep(scores, ranks, rest, p);
  }

  /** Once the selection stops, ranks is a ranked prefix. */
  lemma TopSplitRanked(scores: seq<int>, ranks: seq<nat>, rest: seq<nat>)
    requires TopSplit(scores, ranks, rest)
    ensures RankedPrefix(scores, ranks)
  {
    forall k, i | 0 <= k < |scores| && k !in ranks && 0 <= i < |ranks|
      ensures scores[k] <= scores[ranks[i]]
    {
      var q :| 0 <= q < |rest| && rest[q] == k;
    }
  }

  /** np.argsort(scores)[::-1][:take]: the take positions with the highest
      scores, highest first. Ties are ordered arbitrarily. */
  method TopIndices(scores: seq<int>, take: nat) returns (ranks: seq<nat>)
    requires take <= |scores|
    ensures |ranks| == take
    ensures RankedPrefix(scores, ranks)
  {
    ranks := [];
    var rest: seq<nat> := seq(|scores|, i => i);
    TopSplitInit(scores);
    while |ranks| < take
      invariant |ranks| <= take
      invariant TopSplit(scores, ranks, rest)
      decreases take - |ranks|
    {
      var p := BestPosition(scores, rest);
      TopSplitStep(scores, ranks, rest, p);
      ranks := ranks + [rest[p]];
      rest := rest[..p] + rest[p + 1..];
    }
    TopSplitRanked(scores, ranks, rest);
  }

  /** One retrieval result: {"log": ..., "score": ...}. */
  datatype Candidate = Candidate(log: LogEntry, score: int)

  // ---------------------------------------------------------------- Grader

  /** The body of a remote reply as the client decodes it. */
  datatype Decoded =
    | NotJson(error: string)            // response.json() raises
    | Json(response: Option<string>)    // the "response" field, if present

  /** What a call to the inference backend came to: an exception
      (connection refused, timeout, ...) or a reply with a status code,
      its raw text and its decoded body. */
  datatype Outcome =
    | Raised(description: string)
    | Replied(status: nat, text: string, body: Decoded)

  /** grade_relevance: True when the call raised (fail open), on status 200
      whether "YES" occurs in the upper-cased stripped answer, False for any
      other status. */
  function GradeRelevance(o: Outcome): bool
  {
    match o
    case Raised(_) => true
    case Replied(status, _, body) =>
      if status == 200 then
        match body
        case NotJson(_) => true
        case Json(answer) => Contains(Upper(Strip(answer.GetOr(""))), "YES")
      else false
  }

  /** Grading keeps a candidate when the call raises: the backend cannot be
      reached, or a 200 reply's body is not JSON (the same except branch). */
  lemma GraderFailsOpen(description: string, text: string)
    ensures GradeRelevance(Raised(description))
    ensures GradeRelevance(Replied(200, text, NotJson(description)))
  {
  }

  /** A reply with any status other than 200 drops the candidate: failing
      statuses are not treated as "relevant". */
  lemma GraderRejectsOtherStatus(status: nat, text: string, body: Decoded)
    requires status != 200
    ensures !GradeRelevance(Replied(status, text, body))
  {
  }

  /** On status 200 the verdict is whether the upper-cased answer contains
      "YES"; whitespace around the answer does not matter. */
  lemma GraderOnSuccess(text: string, answer: string)
    ensures GradeRelevance(Replied(200, text, Json(Some(answer)))) == Contains(Upper(answer), "YES")
  {
    var yes := "YES";
    assert yes != [] && !IsSpace(yes[0]) && !IsSpace(yes[|yes| - 1]);
    StripKeepsContains(Upper(answer), yes);
    UpperOfStrip(answer);
  }

  /** A 200 reply without an answer field reads as the empty answer, which says NO. */
  lemma GraderMissingAnswer(text: string)
    ensures !GradeRelevance(Replied(200, text, Json(None)))
  {
    assert Upper(Strip("")) == [];
    assert !Contains([], "YES");
  }

  // ---------------------------------------------------------------- generation

  /** The answer string for the generation call's outcome. */
  function GenerationAnswer(o: Outcome): string
  {
    match o
    case Raised(description) => ConnectFailurePrefix + description
    case Replied(status, text, body) =>
      if status == 200 then
        match body
        case NotJson(error) => ConnectFailurePrefix + error
        case Json(answer) => answer.GetOr(NoContentAnswer)
      else "Ollama Error (" + NatToString(status) + "): " + text
  }

  /** A 200 reply answers with its response field verbatim, or with the
      fixed default when the field is missing. */
  lemma GenerationUsesResponseField(text: string, answer: string)
    ensures GenerationAnswer(Replied(200, text, Json(Some(answer)))) == answer
    ensures GenerationAnswer(Replied(200, text, Json(None))) == NoContentAnswer
  {
  }

  /** A failing status is reported with that status and the reply text;
      the diagnostic determines both, so different failures read differently. */
  lemma GenerationErrorIdentifiesStatus(s1: nat, t1: string, b1: Decoded, s2: nat, t2: string, b2: Decoded)
    requires s1 != 200 && s2 != 200
    requires GenerationAnswer(Replied(s1, t1, b1)) == GenerationAnswer(Replied(s2, t2, b2))
    ensures s1 == s2 && t1 == t2
  {
    var prefix := "Ollama Error (";
    var d1, d2 := NatToString(s1), NatToString(s2);
    var a := GenerationAnswer(Replied(s1, t1, b1));
    assert a == prefix + d1 + "): " + t1;
    assert a == prefix + d2 + "): " + t2;
    assert a[|prefix| + |d1|] == ')' && a[|prefix| + |d2|] == ')';
    assert forall k :: 0 <= k < |d1| ==> a[|prefix| + k] == d1[k];
    assert forall k :: 0 <= k < |d2| ==> a[|prefix| + k] == d2[k];
    assert |d1| == |d2|;
    assert d1 == a[|prefix|..|prefix| + |d1|] == d2;
    NatToStringInjective(s1, s2);
    assert t1 == a[|prefix| + |d1| + 3..] == t2;
  }

  /** A transport failure, or a 200 reply whose body is not JSON, becomes an
      answer that says so and embeds the error. */
  lemma GenerationReportsTransportFailure(description: string, text: string)
    ensures var a := GenerationAnswer(Raised(description));
      a[..|ConnectFailurePrefix|] == ConnectFailurePrefix && a[|ConnectFailurePrefix|..] == description
    ensures GenerationAnswer(Replied(200, text, NotJson(description))) == ConnectFailurePrefix + description
  {
  }

  /** A failing status is reported as "Ollama Error (", the status in decimal
      digits that read back as the status, then "): " and the reply text. */
  lemma GenerationErrorDiagnostic(status: nat, text: string, body: Decoded)
    requires status != 200
    ensures var a, prefix, d := GenerationAnswer(Replied(status, text, body)), "Ollama Error (", NatToString(status);
      |a| == |prefix| + |d| + 3 + |text|
      && a[..|prefix|] == prefix
      && (forall k :: |prefix| <= k < |prefix| + |d| ==> IsDigit(a[k]))
      && DecimalValue(a[|prefix|..|prefix| + |d|]) == status
      && a[|prefix| + |d|..] == "): " + text
  {
    var prefix, d := "Ollama Error (", NatToString(status);
    var a := GenerationAnswer(Replied(status, text, body));
    assert a == prefix + d + "): " + text;
    assert a[|prefix|..|prefix| + |d|] == d;
    DecimalRoundTrip(status);
  }

  // ---------------------------------------------------------------- orchestration

  /** Retrieval positions among the first n whose Grader outcome keeps the
      candidate, in increasing order. */
  function KeptPositions(grades: seq<Outcome>, n: nat): (kept: seq<nat>)
    requires n <= |grades|
    ensures |kept| <= n
    ensures forall j :: 0 <= j < |kept| ==> kept[j] < n
    ensures forall a, b :: 0 <= a < b < |kept| ==> kept[a] < kept[b]
    ensures forall i :: 0 <= i < n ==> (i in kept <==> GradeRelevance(grades[i]))
  {
    if n == 0 then []
    else KeptPositions(grades, n - 1) + (if GradeRelevance(grades[n - 1]) then [n - 1] else [])
  }

  /** The logs of the candidates grading keeps, in retrieval order. */
  function Survivors(candidates: seq<Candidate>, grades: seq<Outcome>): (survivors: seq<LogEntry>)
    requires |candidates| <= |grades|
    ensures |survivors| <= |candidates|
  {
    if candidates == [] then []
    else
      var n := |candidates| - 1;
      Survivors(candidates[..n], grades)
      + (if GradeRelevance(grades[n]) then [candidates[n].log] else [])
  }

  /** Survivor j is the candidate at the j-th kept position: the survivors are
      exactly the kept candidates, in retrieval order. */
  lemma {:induction false} SurvivorsAreKept(candidates: seq<Candidate>, grades: seq<Outcome>)
    requires |candidates| <= |grades|
    ensures |Survivors(candidates, grades)| == |KeptPositions(grades, |candidates|)|
    ensures forall j :: 0 <= j < |Survivors(candidates, grades)| ==>
      Survivors(candidates, grades)[j] == candidates[KeptPositions(grades, |candidates|)[j]].log
  {
    if candidates != [] {
      var n := |candidates| - 1;
      SurvivorsAreKept(candidates[..n], grades);
    }
  }

  /** Grading one more candidate appends its log exactly when it is kept. */
  lemma SurvivorsStep(candidates: seq<Candidate>, grades: seq<Outcome>, i: nat)
    requires i < |candidates| <= |grades|
    ensures Survivors(candidates[..i + 1], grades)
      == Survivors(candidates[..i], grades) + (if GradeRelevance(grades[i]) then [candidates[i].log] else [])
  {
    assert candidates[..i + 1][..i] == candidates[..i];
  }

  /** The logs of the candidates, in retrieval order. */
  function CandidateLogs(candidates: seq<Candidate>): (logs: seq<LogEntry>)
    ensures |logs| == |candidates|
    ensures forall i :: 0 <= i < |candidates| ==> logs[i] == candidates[i].log
  {
    if candidates == [] then [] else [candidates[0].log] + CandidateLogs(candidates[1..])
  }

  /** What the pipeline sends to the inference backend: the line shown to the
      Grader call for each candidate, and the context block of the generation call
      if one is made. */
  datatype Exchange = Exchange(graderLines: seq<string>, generationContext: Option<string>)

  /** The response for the retrieved candidates, their Grader outcomes (one per
      candidate, in retrieval order) and the generation outcome. */
  function Respond(candidates: seq<Candidate>, grades: seq<Outcome>, generation: Outcome): ChatResponse
    requires |candidates| <= |grades|
  {
    var survivors := Survivors(candidates, grades);
    if survivors == [] then ChatResponse(NoRelevantAnswer, [])
    else ChatResponse(GenerationAnswer(generation), survivors)
  }

  function Sent(candidates: seq<Candidate>, grades: seq<Outcome>): Exchange
    requires |candidates| <= |grades|
  {
    var survivors := Survivors(candidates, grades);
    Exchange(
      RenderLines(CandidateLogs(candidates)),
      if survivors == [] then None else Some(ContextBlock(survivors)))
  }

  /** When grading rejects every candidate, the fixed apology comes back
      with no context and no generation call is made. */
  lemma {:induction false} AllRejectedShortCircuits(candidates: seq<Candidate>, grades: seq<Outcome>, generation: Outcome)
    requires |candidates| <= |grades|
    requires forall i :: 0 <= i < |candidates| ==> !GradeRelevance(grades[i])
    ensures Respond(candidates, grades, generation) == ChatResponse(NoRelevantAnswer, [])
    ensures Sent(candidates, grades).generationContext == None
  {
    if candidates != [] {
      var n := |candidates| - 1;
      AllRejectedShortCircuits(candidates[..n], grades, generation);
    }
  }

  /** When grading keeps some candidate, the context is the survivors in
      retrieval order, the answer is the generation outcome's, and the
      generation call is shown the survivors' context block. */
  lemma {:induction false} SomeKeptGenerates(candidates: seq<Candidate>, grades: seq<Outcome>, generation: Outcome, i: nat)
    requires |candidates| <= |grades|
    requires i < |candidates| && GradeRelevance(grades[i])
    ensures var survivors := Survivors(candidates, grades);
      survivors != []
      && Respond(candidates, grades, generation) == ChatResponse(GenerationAnswer(generation), survivors)
      && Sent(candidates, grades).generationContext == Some(ContextBlock(survivors))
  {
    SurvivorsAreKept(candidates, grades);
    var kept := KeptPositions(grades, |candidates|);
    assert i in kept;
  }

  /** With every Grader call unreachable, every retrieved log is kept. */
  lemma {:induction false} UnreachableGraderKeepsAll(candidates: seq<Candidate>, grades: seq<Outcome>)
    requires |candidates| <= |grades|
    requires forall i :: 0 <= i < |candidates| ==> grades[i].Raised?
    ensures Survivors(candidates, grades) == CandidateLogs(candidates)
  {
    if candidates != [] {
      var n := |candidates| - 1;
      UnreachableGraderKeepsAll(candidates[..n], grades);
    }
  }

  /** The grading step of generate_response: each candidate, in retrieval
      order, is kept when its Grader outcome grades[i] says so. */
  method GradeCandidates(candidates: seq<Candidate>, grades: seq<Outcome>) returns (relevant: seq<LogEntry>)
    requires |candidates| <= |grades|
    ensures relevant == Survivors(candidates, grades)
  {
    relevant := [];
    for i := 0 to |candidates|
      invariant relevant == Survivors(candidates[..i], grades)
    {
      SurvivorsStep(candidates, grades, i);
      if GradeRelevance(grades[i]) {
        relevant := relevant + [candidates[i].log];
      }
    }
    assert candidates[..|candidates|] == candidates;
  }

  // ---------------------------------------------------------------- the service

  /** RAGService: the indexed logs and their embeddings. The embedding matrix
      is represented by the texts it was encoded from, one per row. */
  class RAGService {
    var logs: seq<LogEntry>
    var embeddings: Option<seq<string>>

    /** The index is absent exactly when no logs are indexed, and otherwise
        has one row per log, in log order. The constructor and IndexLogs
        establish it; Search and GenerateResponse do not rely on it and also
        cover a state without it (embeddings None beside non-empty logs). */
    ghost predicate Valid()
      reads this
    {
      (embeddings.None? <==> logs == [])
      && (embeddings.Some? ==> embeddings.value == RetrievalTexts(logs))
    }

    constructor ()
      ensures Valid() && logs == [] && embeddings == None
    {
      logs := [];
      embeddings := None;
    }

    /** index_logs: replaces the logs and rebuilds the embeddings, or clears
        them when there is nothing to index. */
    method IndexLogs(newLogs: seq<LogEntry>)
      modifies this
      ensures Valid()
      ensures logs == newLogs
      ensures embeddings == if newLogs == [] then None else Some(RetrievalTexts(newLogs))
    {
      logs := newLogs;
      if newLogs == [] {
        embeddings := None;
        return;
      }
      embeddings := Some(RetrievalTexts(newLogs));
    }

    /** search: scores[i] is log i's similarity to the query. Returns the
        top_k best-scoring logs with their scores, highest first; ranks are
        their positions in logs. */
    method Search(topK: int, scores: seq<int>) returns (results: seq<Candidate>, ghost ranks: seq<nat>)
      requires |scores| == |logs|
      ensures embeddings.None? || logs == [] ==> results == []
      ensures embeddings.Some? && logs != [] ==> |results| == TakeCount(|logs|, topK)
      ensures |ranks| == |results| && RankedPrefix(scores, ranks)
      ensures forall i :: 0 <= i < |results| ==> results[i] == Candidate(logs[ranks[i]], scores[ranks[i]])
    {
      if embeddings.None? || logs == [] {
        return [], [];
      }
      var topIndices := TopIndices(scores, TakeCount(|logs|, topK));
      ranks := topIndices;
      results := [];
      for i := 0 to |topIndices|
        invariant |results| == i
        invariant forall j :: 0 <= j < i ==> results[j] == Candidate(logs[topIndices[j]], scores[topIndices[j]])
      {
        var idx := topIndices[i];
        results := results + [Candidate(logs[idx], scores[idx])];
      }
    }

    /** generate_response: retrieves the top 5, grades each candidate in
        retrieval order with grades[i], and either short-circuits or answers
        from the generation outcome. retrieved and ranks are the search
        results; sent records what went to the inference backend. */
    method GenerateResponse(scores: seq<int>, grades: seq<Outcome>, generation: Outcome)
      returns (response: ChatResponse, ghost retrieved: seq<Candidate>, ghost ranks: seq<nat>, ghost sent: Exchange)
      requires |scores| == |logs|
      requires |grades| >= RetrievalDepth
      ensures |retrieved| <= RetrievalDepth && |retrieved| == |ranks| && RankedPrefix(scores, ranks)
      ensures forall i :: 0 <= i < |retrieved| ==> retrieved[i] == Candidate(logs[ranks[i]], scores[ranks[i]])
      ensures embeddings.Some? && logs != [] ==> |retrieved| == TakeCount(|logs|, RetrievalDepth)
      ensures response == Respond(retrieved, grades, generation)
      ensures sent == Sent(retrieved, grades)
      ensures |sent.graderLines| == |retrieved|
      ensures |response.context| <= |retrieved|
      ensures embeddings.None? || logs == [] ==> retrieved == [] && response == ChatResponse(NoRelevantAnswer, [])
    {
      var rawResults;
      rawResults, ranks := Search(RetrievalDepth, scores);
      retrieved := rawResults;
      var relevantLogs := GradeCandidates(rawResults, grades);
      ghost var graderLines := RenderLines(CandidateLogs(rawResults));
      if relevantLogs == [] {
        response := ChatResponse(NoRelevantAnswer, []);
        sent := Exchange(graderLines, None);
        return;
      }
      var contextStr := ContextBlock(relevantLogs);
      var answer := GenerationAnswer(generation);
      response := ChatResponse(answer, relevantLogs);
      sent := Exchange(graderLines, Some(contextStr));
    }
  }
}
