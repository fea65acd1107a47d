/** The refinement loop of `autochip_scripts/verilog_handling.py`:
    `generate_verilog_responses`, which turns the texts of a model into parsed
    candidates, and `verilog_loop`, which runs the compiler and the simulator once
    per candidate, keeps the best mismatch count, feeds the best candidate back into the
    conversation and stops at zero mismatches or after the last iteration.
    The model services, the simulator and the files the loop writes are not
    part of this model: the services and the simulator are the functions of a
    `LoopTools` value. */
module VerilogLoop {
  import opened Common
  import opened TextUtil
  import opened ConversationLog
  import opened ConfigHandler
  import opened VerilogHandling
  import opened LanguageModels

  /** The errors that end `verilog_loop` with an exception: a model family the
      dispatcher does not know (`ValueError`), `max` of an empty candidate list
      (`ValueError`), and reading `current_mismatches` for the log before any
      simulation output was analysed (`UnboundLocalError`). */
  datatype LoopError = InvalidModelType | EmptyCandidateList | UnboundCurrentMismatches

  /** The services the loop calls.
      `complete(family, id, messages, n)`: the texts a ChatGPT, Claude or Gemini model
      returns for the conversation;
      `edit(messages)`: the text the user leaves in the editor (`HumanInput`);
      `scan`: the module regex of `find_verilog_modules`;
      `compile(iteration, idx)`: the compiler output for the file
      `iter<iteration>/response<idx>/<module>.sv`;
      `simulate(iteration, idx)`: the simulator's triple for that file as the loop
      unpacks it, `(return_code, stderr, stdout)`.
      The loop never writes a candidate's parsed text to that file, so neither result
      depends on the candidate: both take only the round and the candidate's index. */
  datatype LoopTools = LoopTools(
    complete: (string, string, seq<Message>, int) -> seq<string>,
    edit: seq<Message> -> string,
    scan: ModuleScan,
    compile: (nat, nat) -> string,
    simulate: (nat, nat) -> (bool, string, string))

  const ServiceFamilies: seq<string> := ["ChatGPT", "Claude", "Gemini"]

  /** The system message `verilog_loop` starts every conversation with. */
  const SystemPrompt: string :=
    "You are a Verilog code generator that learns from compilation and simulation feedback. \n" +
    "   Follow these rules:\n" +
    "   1. Only use signals/ports defined in the module interface\n" +
    "   2. Follow the design requirements exactly as specified in the prompt\n" +
    "   3. Learn from any compilation errors\n" +
    "   4. Maintain the exact module interface as given"

  // ---------------------------------------------------------------------------
  // generate_verilog_responses
  // ---------------------------------------------------------------------------

  /** As written: `HumanInput.generate` hands back the edited text itself, and the
      caller enumerates it, so every character becomes a candidate of its own. */
  function HumanCandidatesAsWritten(edited: string): seq<string> {
    seq(|edited|, k requires 0 <= k < |edited| => [edited[k]])
  }

  /** An edit of two or more characters never reaches the loop whole: there are as
      many candidates as characters, each of them one character long. */
  lemma HumanEditIsSplit(edited: string)
    requires |edited| >= 2
    ensures |HumanCandidatesAsWritten(edited)| == |edited|
    ensures forall c :: c in HumanCandidatesAsWritten(edited) ==> |c| == 1
    ensures edited !in HumanCandidatesAsWritten(edited)
  {
  }

  /** The edit `"ab"` yields the two candidates `"a"` and `"b"`. */
  lemma HumanEditExample()
    ensures HumanCandidatesAsWritten("ab") == ["a", "b"]
  {
    var r := HumanCandidatesAsWritten("ab");
    assert r[0] == "a" && r[1] == "b";
  }

  /** Corrected: the edited text is the one candidate of the human family. */
  function HumanCandidates(edited: string): seq<string> {
    [edited]
  }

  /** The dispatcher: the texts of the named family, or `None` for the
      `ValueError("Invalid model type")` of any other family. */
  function CandidateTexts(family: Option<string>, id: string, messages: seq<Message>, n: int,
                          tools: LoopTools): Option<seq<string>> {
    if family.Some? && family.value in ServiceFamilies then Some(tools.complete(family.value, id, messages, n))
    else if family == Some("Human") then Some(HumanCandidates(tools.edit(messages)))
    else None
  }

  /** A response whose parsed text is derived from its full text. */
  predicate Parsed(r: LLMResponse, scan: ModuleScan)
    reads r
  {
    r.parsedText == ParsedTextOf(r.fullText, scan) && r.LengthInSync()
  }

  /** Candidate number `k` of iteration 0 for `text`: parsed, with rank -3 and no message. */
  predicate Candidate(r: LLMResponse, k: int, text: string, scan: ModuleScan)
    reads r
  {
    r.iteration == 0 && r.responseNum == k && r.fullText == text &&
    Parsed(r, scan) && r.rank == -3 && r.message == ""
  }

  /** `rs` are distinct records of `texts`, in order, numbered from 0. */
  predicate CandidateList(rs: seq<LLMResponse>, texts: seq<string>, scan: ModuleScan)
    reads rs
  {
    |rs| == |texts| &&
    (forall i, j :: 0 <= i < j < |rs| ==> rs[i] != rs[j]) &&
    forall k :: 0 <= k < |rs| ==> Candidate(rs[k], k, texts[k], scan)
  }

  /** Adding a new record of the next text extends a candidate list. */
  lemma CandidateListSnoc(rs: seq<LLMResponse>, texts: seq<string>, scan: ModuleScan, r: LLMResponse, text: string)
    requires CandidateList(rs, texts, scan) && Candidate(r, |rs|, text, scan) && r !in rs
    ensures CandidateList(rs + [r], texts + [text], scan)
  {
    var rs', texts' := rs + [r], texts + [text];
    forall k | 0 <= k < |rs'|
      ensures Candidate(rs'[k], k, texts'[k], scan)
    {
      if k < |rs| {
        assert rs'[k] == rs[k] && texts'[k] == texts[k];
      }
    }
  }

  /** The step of the parsing loop: a new record of text `idx` extends the list of
      the first `idx` texts. */
  lemma CandidateListNext(rs: seq<LLMResponse>, texts: seq<string>, idx: nat, scan: ModuleScan, r: LLMResponse)
    requires idx < |texts| && CandidateList(rs, texts[..idx], scan)
    requires Candidate(r, idx, texts[idx], scan) && r !in rs
    ensures CandidateList(rs + [r], texts[..idx + 1], scan)
  {
    CandidateListSnoc(rs, texts[..idx], scan, r, texts[idx]);
    assert texts[..idx + 1] == texts[..idx] + [texts[idx]];
  }

  /** `lm.LLMResponse(0, idx, response_text)` followed by its `parse_verilog()`. */
  method NewCandidate(idx: int, text: string, scan: ModuleScan) returns (response: LLMResponse)
    ensures fresh(response) && Candidate(response, idx, text, scan)
  {
    response := new LLMResponse(0, idx, text);
    response.ParseVerilog(scan);
  }

  /** The comprehension and the parsing loop of `generate_verilog_responses`, run as
      one pass (parsing a response touches only that response). */
  method ParsedResponses(responseTexts: seq<string>, scan: ModuleScan) returns (responses: seq<LLMResponse>)
    ensures CandidateList(responses, responseTexts, scan)
    ensures forall k :: 0 <= k < |responses| ==> fresh(responses[k])
  {
    responses := [];
    var idx := 0;
    while idx < |responseTexts|
      invariant 0 <= idx <= |responseTexts|
      invariant CandidateList(responses, responseTexts[..idx], scan)
      invariant forall k :: 0 <= k < |responses| ==> fresh(responses[k])
    {
      var response := NewCandidate(idx, responseTexts[idx], scan);
      CandidateListNext(responses, responseTexts, idx, scan, response);
      responses := responses + [response];
      idx := idx + 1;
    }
    assert responseTexts[..idx] == responseTexts;
  }

  /** `generate_verilog_responses`: one parsed `LLMResponse(0, idx, text)` per text of
      the family's model; `InvalidModelType` for a family the dispatcher does not know. */
  method GenerateVerilogResponses(conv: Conversation, family: Option<string>, id: string, n: int,
                                  tools: LoopTools)
      returns (r: Result<seq<LLMResponse>, LoopError>)
    ensures var texts := CandidateTexts(family, id, conv.messages, n, tools);
      (r.Err? <==> texts.None?) && (r.Err? ==> r.error == InvalidModelType) &&
      (r.Ok? ==> CandidateList(r.value, texts.value, tools.scan) &&
                 forall k :: 0 <= k < |r.value| ==> fresh(r.value[k]))
    ensures family == Some("Human") ==>
              r.Ok? && |r.value| == 1 && r.value[0].fullText == tools.edit(conv.messages)
  {
    var responseTexts: seq<string>;
    if family.Some? && family.value in ServiceFamilies {
      responseTexts := tools.complete(family.value, id, conv.GetMessages(), n);
    } else if family == Some("Human") {
      responseTexts := HumanCandidates(tools.edit(conv.GetMessages()));
    } else {
      return Err(InvalidModelType);
    }
    var responses := ParsedResponses(responseTexts, tools.scan);
    return Ok(responses);
  }

  // ---------------------------------------------------------------------------
  // The best attempt and its feedback
  // ---------------------------------------------------------------------------

  /** `best_mismatches`, `best_output_mismatches` and `best_code`. */
  datatype Best = Best(mismatches: Count, outputMismatches: SignalTable, code: Option<string>)

  const StartBest := Best(Infinite, [], None)

  /** There is a best code exactly when a finite count was reached. */
  predicate BestValid(b: Best) {
    b.code.Some? <==> b.mismatches.Finite?
  }

  /** `best_code and best_mismatches < float('inf')`. */
  predicate HasBest(b: Best) {
    b.code.Some? && b.code.value != "" && b.mismatches.Finite?
  }

  predicate FailsEarly(e: (string, SignalStat)) {
    e.1.firstTime < 100 && e.1.count > 0
  }

  predicate FailsLate(e: (string, SignalStat)) {
    e.1.firstTime >= 100 && e.1.count > 0
  }

  /** The signals that first fail before time 100, in table order. */
  function EarlyFailures(t: SignalTable): seq<string> {
    if |t| == 0 then []
    else EarlyFailures(t[..|t| - 1]) + (if FailsEarly(t[|t| - 1]) then [t[|t| - 1].0] else [])
  }

  /** The signals that first fail at time 100 or later, in table order. */
  function LateFailures(t: SignalTable): seq<string> {
    if |t| == 0 then []
    else LateFailures(t[..|t| - 1]) + (if FailsLate(t[|t| - 1]) then [t[|t| - 1].0] else [])
  }

  /** The signal names listed as failing early are exactly those of early-failing entries. */
  lemma {:induction false} EarlyFailuresMembers(t: SignalTable, s: string)
    ensures s in EarlyFailures(t) <==> exists k :: 0 <= k < |t| && t[k].0 == s && FailsEarly(t[k])
    decreases |t|
  {
    if |t| > 0 {
      var init := t[..|t| - 1];
      EarlyFailuresMembers(init, s);
      if exists k :: 0 <= k < |init| && init[k].0 == s && FailsEarly(init[k]) {
        var k :| 0 <= k < |init| && init[k].0 == s && FailsEarly(init[k]);
        assert t[k] == init[k];
      }
      if exists k :: 0 <= k < |t| && t[k].0 == s && FailsEarly(t[k]) {
        var k :| 0 <= k < |t| && t[k].0 == s && FailsEarly(t[k]);
        if k < |init| {
          assert init[k] == t[k];
        }
      }
    }
  }

  /** The signal names listed as failing late are exactly those of late-failing entries. */
  lemma {:induction false} LateFailuresMembers(t: SignalTable, s: string)
    ensures s in LateFailures(t) <==> exists k :: 0 <= k < |t| && t[k].0 == s && FailsLate(t[k])
    decreases |t|
  {
    if |t| > 0 {
      var init := t[..|t| - 1];
      LateFailuresMembers(init, s);
      if exists k :: 0 <= k < |init| && init[k].0 == s && FailsLate(init[k]) {
        var k :| 0 <= k < |init| && init[k].0 == s && FailsLate(init[k]);
        assert t[k] == init[k];
      }
      if exists k :: 0 <= k < |t| && t[k].0 == s && FailsLate(t[k]) {
        var k :| 0 <= k < |t| && t[k].0 == s && FailsLate(t[k]);
        if k < |init| {
          assert init[k] == t[k];
        }
      }
    }
  }

  /** Every failing signal of the best attempt is reported in exactly one of the two
      lists (the table holds each signal once). */
  lemma FailuresPartition(t: SignalTable, k: int)
    requires DistinctKeys(t)
    requires 0 <= k < |t| && t[k].1.count > 0
    ensures (t[k].0 in EarlyFailures(t)) != (t[k].0 in LateFailures(t))
  {
    EarlyFailuresMembers(t, t[k].0);
    LateFailuresMembers(t, t[k].0);
  }

  /** The lines of the message that opens a round once a best attempt exists. */
  function BestSoFarLines(b: Best): seq<string> {
    var early := EarlyFailures(b.outputMismatches);
    var late := LateFailures(b.outputMismatches);
    ["\nPrevious iteration achieved " + CountText(b.mismatches) + " mismatches.",
     "Analysis of best attempt so far:"] +
    (if |early| > 0 then ["Signals failing early (check initialization): " + Join(", ", early)] else []) +
    (if |late| > 0 then ["Signals failing during operation: " + Join(", ", late)] else [])
  }

  /** The head of each round: with a best attempt, the user hears its count and its
      failing signals; without one the conversation is left as it is. */
  method FeedBackBest(conv: Conversation, best: Best)
    modifies conv
    ensures conv.messages ==
              old(conv.messages) + (if HasBest(best) then [Message("user", Join("\n", BestSoFarLines(best)))] else [])
  {
    if best.code.Some? && best.code.value != "" && best.mismatches.Less(Infinite) {
      var feedback := ["\nPrevious iteration achieved " + CountText(best.mismatches) + " mismatches.",
                       "Analysis of best attempt so far:"];
      var earlyFailures := EarlyFailures(best.outputMismatches);
      if |earlyFailures| > 0 {
        feedback := feedback + ["Signals failing early (check initialization): " + Join(", ", earlyFailures)];
      }
      var lateFailures := LateFailures(best.outputMismatches);
      if |lateFailures| > 0 {
        feedback := feedback + ["Signals failing during operation: " + Join(", ", lateFailures)];
      }
      assert feedback == BestSoFarLines(best);
      conv.AddMessage("user", Join("\n", feedback));
    }
  }

  /** `best_output_mismatches.get(signal, {'count': float('inf')})['count']`. */
  function PreviousCount(prev: SignalTable, signal: string): Count {
    match Lookup(prev, signal)
    case Some(stat) => Finite(stat.count)
    case None => Infinite
  }

  predicate SignalImproved(e: (string, SignalStat), prev: SignalTable) {
    Finite(e.1.count).Less(PreviousCount(prev, e.0))
  }

  function ImprovementLine(e: (string, SignalStat), prev: SignalTable): string {
    "- " + e.0 + " improved: " + CountText(PreviousCount(prev, e.0)) + " -> " + NatToString(e.1.count) +
    " mismatches"
  }

  /** One line per signal of `current` whose count is below its count in `prev`. */
  function SignalImprovements(current: SignalTable, prev: SignalTable): seq<string> {
    if |current| == 0 then []
    else
      var last := current[|current| - 1];
      SignalImprovements(current[..|current| - 1], prev) +
      (if SignalImproved(last, prev) then [ImprovementLine(last, prev)] else [])
  }

  function ImprovementHeader(best: Count, count: Count): seq<string> {
    ["\nImprovement found: " + CountText(best) + " -> " + CountText(count) + " mismatches",
     "Changes in signal behavior:"]
  }

  /** The line of every improved signal is in the improvement message. */
  lemma {:induction false} ImprovedSignalListed(current: SignalTable, prev: SignalTable, k: nat)
    requires k < |current| && SignalImproved(current[k], prev)
    ensures ImprovementLine(current[k], prev) in SignalImprovements(current, prev)
    decreases |current|
  {
    var init := current[..|current| - 1];
    if k < |init| {
      assert init[k] == current[k];
      ImprovedSignalListed(init, prev, k);
    }
  }

  /** Every line of the improvement message is the line of an improved signal. */
  lemma {:induction false} ListedSignalImproved(current: SignalTable, prev: SignalTable, line: string)
    requires line in SignalImprovements(current, prev)
    ensures exists k :: 0 <= k < |current| && SignalImproved(current[k], prev) &&
              line == ImprovementLine(current[k], prev)
    decreases |current|
  {
    var init := current[..|current| - 1];
    var last := current[|current| - 1];
    if line in SignalImprovements(init, prev) {
      ListedSignalImproved(init, prev, line);
      var k :| 0 <= k < |init| && SignalImproved(init[k], prev) && line == ImprovementLine(init[k], prev);
      assert current[k] == init[k];
    } else {
      assert SignalImproved(last, prev) && line == ImprovementLine(last, prev);
    }
  }

  /** Against an empty table (the first improvement) every signal counts as improved. */
  lemma {:induction false} FirstImprovementListsAll(current: SignalTable)
    ensures |SignalImprovements(current, [])| == |current|
    decreases |current|
  {
    if |current| > 0 {
      FirstImprovementListsAll(current[..|current| - 1]);
      assert PreviousCount([], current[|current| - 1].0) == Infinite;
    }
  }

  lemma ImprovementStep(current: SignalTable, prev: SignalTable, i: nat)
    requires i < |current|
    ensures SignalImprovements(current[..i + 1], prev) ==
              SignalImprovements(current[..i], prev) +
              (if SignalImproved(current[i], prev) then [ImprovementLine(current[i], prev)] else [])
  {
    assert current[..i + 1][..i] == current[..i];
  }

  /** The improvement message: the header, then the per-signal loop. */
  method ImprovementMessage(best: Count, count: Count, current: SignalTable, prev: SignalTable)
      returns (msg: seq<string>)
    ensures msg == ImprovementLines(best, count, current, prev)
  {
    msg := ["\nImprovement found: " + CountText(best) + " -> " + CountText(count) + " mismatches",
            "Changes in signal behavior:"];
    for i := 0 to |current|
      invariant msg == ImprovementHeader(best, count) + SignalImprovements(current[..i], prev)
    {
      ImprovementStep(current, prev, i);
      var (signal, data) := current[i];
      var prevCount := PreviousCount(prev, signal);
      ghost var added: seq<string> := [];
      if Finite(data.count).Less(prevCount) {
        var line := "- " + signal + " improved: " + CountText(prevCount) + " -> " + NatToString(data.count) +
                    " mismatches";
        added := [line];
        assert line == ImprovementLine(current[i], prev);
        msg := msg + [line];
      }
      assert added == if SignalImproved(current[i], prev) then [ImprovementLine(current[i], prev)] else [];
      AppendAssoc(ImprovementHeader(best, count), SignalImprovements(current[..i], prev), added);
    }
    assert current[..|current|] == current;
  }

  // ---------------------------------------------------------------------------
  // One candidate
  // ---------------------------------------------------------------------------

  /** What the compile and simulate calls make of one candidate, against the best so far:
      compiler output without `0 Errors`; no simulator output; or an analysed output
      with its feedback lines, signal table and count, and whether the count beats the
      best. */
  datatype Assessment =
    | CompileFailed(output: string)
    | NoSimulationOutput
    | Analyzed(feedback: seq<string>, current: SignalTable, count: Count, improved: bool)

  /** The improvement message: a header naming both counts, then one line per
      improved signal. */
  function ImprovementLines(best: Count, count: Count, current: SignalTable, prev: SignalTable): seq<string> {
    ImprovementHeader(best, count) + SignalImprovements(current, prev)
  }

  /** Reference reading of a non-empty simulator output against the best so far. */
  function Analysis(stdout: string, best: Best): Assessment {
    var ms := SignalMatches(stdout, 0);
    var count := SummaryCount(stdout);
    var feedback := SummaryFeedback(stdout) + SignalFeedback(ms);
    var current := TableOf(ms);
    if count.Less(best.mismatches) then
      Analyzed(feedback + ImprovementLines(best.mismatches, count, current, best.outputMismatches),
               current, count, true)
    else Analyzed(feedback, current, count, false)
  }

  /** Reference reading of one pass of the candidate loop. */
  function Assess(compileOutput: string, stdout: string, best: Best): Assessment {
    if !Contains(compileOutput, "0 Errors") then CompileFailed(compileOutput)
    else if stdout == "" then NoSimulationOutput
    else Analysis(stdout, best)
  }

  function AssessAt(iteration: nat, idx: nat, tools: LoopTools, best: Best): Assessment {
    Assess(tools.compile(iteration, idx), tools.simulate(iteration, idx).2, best)
  }

  /** Zero mismatches below the best: the loop returns at once. */
  predicate Stops(a: Assessment) {
    a.Analyzed? && a.improved && a.count == Finite(0)
  }

  function RankAfter(a: Assessment, rank: int): int {
    match a
    case CompileFailed(_) => -1
    case NoSimulationOutput => rank
    case Analyzed(_, _, count, improved) => if !improved then -1 else if count == Finite(0) then rank else 1
  }

  function MessageAfter(a: Assessment, message: string): string {
    match a
    case CompileFailed(output) => if output != "" then output else "Compilation errors occurred."
    case NoSimulationOutput => message
    case Analyzed(feedback, _, count, improved) =>
      if improved && count == Finite(0) then message else Join("\n", feedback)
  }

  function BestAfter(a: Assessment, best: Best, text: string): Best {
    if a.Analyzed? && a.improved then Best(a.count, a.current, Some(text)) else best
  }

  function CurrentAfter(a: Assessment, current: Option<SignalTable>): Option<SignalTable> {
    if a.Analyzed? then Some(a.current) else current
  }

  /** The analysed count is the summary's count, and it improves exactly when it is
      below the best. */
  lemma AnalysisCount(stdout: string, best: Best)
    ensures Analysis(stdout, best).Analyzed?
    ensures Analysis(stdout, best).count == SummaryCount(stdout)
    ensures Analysis(stdout, best).improved <==> SummaryCount(stdout).Less(best.mismatches)
    ensures Analysis(stdout, best).current == TableOf(SignalMatches(stdout, 0))
  {
  }

  /** The rank of a fresh candidate (-3) after its pass: 1 exactly when it compiled,
      produced output and beat the best with a non-zero count; -1 exactly when it failed
      to compile or did not beat the best; -3 when the simulator printed nothing or
      the loop stopped on it. */
  lemma FreshRankCases(compileOutput: string, stdout: string, best: Best)
    ensures var rank := RankAfter(Assess(compileOutput, stdout, best), -3);
      var count := SummaryCount(stdout);
      (rank == 1 <==>
         Contains(compileOutput, "0 Errors") && stdout != "" && count.Less(best.mismatches) &&
         count != Finite(0)) &&
      (rank == -1 <==>
         !Contains(compileOutput, "0 Errors") || (stdout != "" && !count.Less(best.mismatches))) &&
      (rank == -3 <==>
         Contains(compileOutput, "0 Errors") && (stdout == "" || (count == Finite(0) && count.Less(best.mismatches))))
  {
    if Contains(compileOutput, "0 Errors") && stdout != "" {
      var a := Analysis(stdout, best);
      AnalysisCount(stdout, best);
      assert Assess(compileOutput, stdout, best) == a;
      assert RankAfter(a, -3) == if !a.improved then -1 else if a.count == Finite(0) then -3 else 1;
    }
  }

  /** A failed compilation always leaves a message: the compiler output, or the
      stock text when the output is empty. */
  lemma CompileFailureMessage(compileOutput: string, stdout: string, best: Best, message: string)
    requires !Contains(compileOutput, "0 Errors")
    ensures MessageAfter(Assess(compileOutput, stdout, best), message) != ""
    ensures compileOutput != "" ==> MessageAfter(Assess(compileOutput, stdout, best), message) == compileOutput
  {
  }

  /** The best never gets worse; it changes exactly when an analysed count beats it,
      and then it records this candidate's text, count and table. */
  lemma BestRule(compileOutput: string, stdout: string, best: Best, text: string)
    ensures var b := BestAfter(Assess(compileOutput, stdout, best), best, text);
      (b.mismatches == best.mismatches || b.mismatches.Less(best.mismatches)) &&
      (b.mismatches.Less(best.mismatches) <==>
         Contains(compileOutput, "0 Errors") && stdout != "" && SummaryCount(stdout).Less(best.mismatches)) &&
      (b.mismatches.Less(best.mismatches) ==>
         b == Best(SummaryCount(stdout), TableOf(SignalMatches(stdout, 0)), Some(text))) &&
      (!b.mismatches.Less(best.mismatches) ==> b == best) &&
      (BestValid(best) ==> BestValid(b))
  {
    if Contains(compileOutput, "0 Errors") && stdout != "" {
      AnalysisCount(stdout, best);
    }
  }

  /** One pass never makes the best worse, keeps it well formed, and brings it to
      zero only on a pass that stops the loop. */
  lemma StepNeverWorsens(iteration: nat, idx: nat, text: string, tools: LoopTools, best: Best)
    ensures var a := AssessAt(iteration, idx, tools, best);
      var b := BestAfter(a, best, text);
      (b.mismatches == best.mismatches || b.mismatches.Less(best.mismatches)) &&
      (BestValid(best) ==> BestValid(b)) &&
      (b.mismatches == Finite(0) && best.mismatches != Finite(0) ==> Stops(a))
  {
    var stdout := tools.simulate(iteration, idx).2;
    BestRule(tools.compile(iteration, idx), stdout, best, text);
  }

  /** Fields a pass leaves alone. */
  twostate predicate Unmoved(r: LLMResponse)
    reads r
  {
    r.iteration == old(r.iteration) && r.responseNum == old(r.responseNum) && r.fullText == old(r.fullText)
  }

  /** The feedback of a non-empty simulator output: the analysis lines, then the
      improvement message when the count beats the best. */
  method OutputFeedback(stdout: string, best: Best)
      returns (feedback: seq<string>, currentMismatches: SignalTable, mismatchCount: Count)
    ensures var a := Analysis(stdout, best);
      feedback == a.feedback && currentMismatches == a.current && mismatchCount == a.count
  {
    feedback, currentMismatches, mismatchCount := AnalyzeSimulationResults(stdout);
    if mismatchCount.Less(best.mismatches) {
      var improvementMsg := ImprovementMessage(best.mismatches, mismatchCount, currentMismatches,
                                               best.outputMismatches);
      feedback := feedback + improvementMsg;
    }
  }

  /** The analysing part of a pass, given the feedback, table and count of the
      output: compare with the best and set rank and message unless the count is zero. */
  method RankAnalyzed(response: LLMResponse, feedback: seq<string>, currentMismatches: SignalTable,
                      mismatchCount: Count, best: Best, globalMax: LLMResponse)
      returns (stop: bool, newBest: Best, newGlobal: LLMResponse)
    modifies response
    ensures response.parsedText == old(response.parsedText) && response.parsedLength == old(response.parsedLength)
    ensures Unmoved(response)
    ensures var a := Analyzed(feedback, currentMismatches, mismatchCount, mismatchCount.Less(best.mismatches));
      stop == Stops(a) && newBest == BestAfter(a, best, response.parsedText) &&
      response.rank == RankAfter(a, old(response.rank)) &&
      response.message == MessageAfter(a, old(response.message)) &&
      newGlobal == (if a.improved && !stop then response else globalMax)
  {
    stop, newBest, newGlobal := false, best, globalMax;
    if mismatchCount.Less(best.mismatches) {
      newBest := Best(mismatchCount, currentMismatches, Some(response.parsedText));
      if mismatchCount == Finite(0) {
        stop := true;
        return;
      }
      response.rank := 1;
      newGlobal := response;
    } else {
      response.rank := -1;
    }
    response.message := Join("\n", feedback);
  }

  /** One pass of the candidate loop: re-parse, compile, simulate when the compiler
      reports `0 Errors`, analyse a non-empty output, and update the best; the
      returned flag says the loop returns here (zero mismatches). */
  method EvaluateCandidate(response: LLMResponse, iteration: nat, idx: nat, tools: LoopTools, best: Best,
                           current: Option<SignalTable>, globalMax: LLMResponse)
      returns (stop: bool, newBest: Best, newCurrent: Option<SignalTable>, newGlobal: LLMResponse,
               ghost a: Assessment)
    requires Parsed(response, tools.scan)
    modifies response
    ensures Parsed(response, tools.scan) && Unmoved(response) && response.parsedText == old(response.parsedText)
    ensures a == AssessAt(iteration, idx, tools, best)
    ensures stop == Stops(a) && newBest == BestAfter(a, best, response.parsedText) &&
      newCurrent == CurrentAfter(a, current) &&
      response.rank == RankAfter(a, old(response.rank)) &&
      response.message == MessageAfter(a, old(response.message)) &&
      newGlobal == (if a.Analyzed? && a.improved && !stop then response else globalMax)
  {
    response.ParseVerilog(tools.scan);
    a := AssessAt(iteration, idx, tools, best);
    stop, newBest, newCurrent, newGlobal := false, best, current, globalMax;
    var compileOutput := tools.compile(iteration, idx);
    if Contains(compileOutput, "0 Errors") {
      var (returnCode, stderr, stdout) := tools.simulate(iteration, idx);
      if stdout != "" {
        var feedback, currentMismatches, mismatchCount := OutputFeedback(stdout, best);
        AnalysisCount(stdout, best);
        newCurrent := Some(currentMismatches);
        stop, newBest, newGlobal := RankAnalyzed(response, feedback, currentMismatches, mismatchCount, best, globalMax);
      }
    } else {
      response.rank := -1;
      response.message := if compileOutput != "" then compileOutput else "Compilation errors occurred.";
    }
  }

  // ---------------------------------------------------------------------------
  // One round
  // ---------------------------------------------------------------------------

  /** How a round assesses one candidate: `judge(k, text, best)` is the assessment of
      candidate `k`, whose parsed text is `text`, against the best so far. */
  type Judge = (nat, string, Best) -> Assessment

  /** The judge of round `iteration`: compile, simulate and analyse with `tools`. */
  function RoundJudge(iteration: nat, tools: LoopTools): Judge {
    (k: nat, text: string, best: Best) => AssessAt(iteration, k, tools, best)
  }

  /** A judge whose assessments never make the best worse. */
  ghost predicate NeverWorsens(judge: Judge) {
    forall k, text, best ::
      var b := BestAfter(judge(k, text, best), best, text).mismatches;
      b == best.mismatches || b.Less(best.mismatches)
  }

  lemma RoundJudgeNeverWorsens(iteration: nat, tools: LoopTools)
    ensures NeverWorsens(RoundJudge(iteration, tools))
  {
    forall k: nat, text: string, best: Best
      ensures var b := BestAfter(RoundJudge(iteration, tools)(k, text, best), best, text).mismatches;
        b == best.mismatches || b.Less(best.mismatches)
    {
      StepNeverWorsens(iteration, k, text, tools, best);
    }
  }

  /** The best before candidate `k` of a round whose candidates have the parsed
      texts `texts`. */
  function BestBefore(judge: Judge, texts: seq<string>, k: nat, best: Best): Best
    requires k <= |texts|
  {
    if k == 0 then best
    else
      var b := BestBefore(judge, texts, k - 1, best);
      BestAfter(judge(k - 1, texts[k - 1], b), b, texts[k - 1])
  }

  /** The assessments of the first `k` candidates, each against the best left by the
      candidates before it. */
  function Outcomes(judge: Judge, texts: seq<string>, k: nat, best: Best): (r: seq<Assessment>)
    requires k <= |texts|
    ensures |r| == k
  {
    if k == 0 then []
    else Outcomes(judge, texts, k - 1, best) + [judge(k - 1, texts[k - 1], BestBefore(judge, texts, k - 1, best))]
  }

  /** `outcomes` are the assessments of the first candidates of a round whose parsed
      texts are `texts`, and `bests` the best before each of them and after the last:
      candidate `k` is assessed against `bests[k]`, which its assessment turns into
      `bests[k + 1]`. */
  predicate Trail(judge: Judge, texts: seq<string>, outcomes: seq<Assessment>, bests: seq<Best>) {
    |outcomes| <= |texts| && |bests| == |outcomes| + 1 &&
    forall k {:trigger judge(k, texts[k], bests[k])} :: 0 <= k < |outcomes| ==>
      outcomes[k] == judge(k, texts[k], bests[k]) &&
      bests[k + 1] == BestAfter(outcomes[k], bests[k], texts[k])
  }

  /** Assessing the next candidate against the last best extends a trail. */
  lemma TrailExtends(judge: Judge, texts: seq<string>, outcomes: seq<Assessment>, bests: seq<Best>,
                     a: Assessment, b: Best)
    requires Trail(judge, texts, outcomes, bests) && |outcomes| < |texts|
    requires a == judge(|outcomes|, texts[|outcomes|], bests[|outcomes|])
    requires b == BestAfter(a, bests[|outcomes|], texts[|outcomes|])
    ensures Trail(judge, texts, outcomes + [a], bests + [b])
  {
    var n := |outcomes|;
    forall k | 0 <= k < n + 1
      ensures (outcomes + [a])[k] == judge(k, texts[k], (bests + [b])[k])
      ensures (bests + [b])[k + 1] == BestAfter((outcomes + [a])[k], (bests + [b])[k], texts[k])
    {
      if k < n {
        assert bests[k] == (bests + [b])[k];
      }
    }
  }

  /** A trail is the recursive reading of the round: its first `k` assessments are
      `Outcomes` and its best before candidate `k` is `BestBefore`. */
  lemma {:induction false} TrailIsOutcomes(judge: Judge, texts: seq<string>, outcomes: seq<Assessment>,
                                           bests: seq<Best>, k: nat)
    requires Trail(judge, texts, outcomes, bests) && k <= |outcomes|
    ensures outcomes[..k] == Outcomes(judge, texts, k, bests[0])
    ensures bests[k] == BestBefore(judge, texts, k, bests[0])
    decreases k
  {
    if k > 0 {
      TrailIsOutcomes(judge, texts, outcomes, bests, k - 1);
      assert outcomes[k - 1] == judge(k - 1, texts[k - 1], bests[k - 1]);
      assert outcomes[..k] == outcomes[..k - 1] + [outcomes[k - 1]];
    }
  }

  /** Along a trail the best never gets worse. */
  lemma TrailNeverWorsens(judge: Judge, texts: seq<string>, outcomes: seq<Assessment>, bests: seq<Best>)
    requires NeverWorsens(judge) && Trail(judge, texts, outcomes, bests)
    ensures var b0, bn := bests[0].mismatches, bests[|outcomes|].mismatches; bn == b0 || bn.Less(b0)
  {
    TrailIsOutcomes(judge, texts, outcomes, bests, |outcomes|);
    BestNeverWorsens(judge, texts, 0, |outcomes|, bests[0]);
  }

  /** Over a round the best never gets worse: it is the same or strictly lower after
      every later candidate. */
  lemma {:induction false} BestNeverWorsens(judge: Judge, texts: seq<string>, j: nat, k: nat, best: Best)
    requires NeverWorsens(judge) && j <= k <= |texts|
    ensures var bj := BestBefore(judge, texts, j, best).mismatches;
      var bk := BestBefore(judge, texts, k, best).mismatches;
      bk == bj || bk.Less(bj)
  {
    var t := seq(|texts| + 1, i requires 0 <= i <= |texts| => BestBefore(judge, texts, i, best).mismatches);
    forall i | 0 < i < |t|
      ensures t[i] == t[i - 1] || t[i].Less(t[i - 1])
    {
      var b := BestBefore(judge, texts, i - 1, best);
      assert BestBefore(judge, texts, i, best) == BestAfter(judge(i - 1, texts[i - 1], b), b, texts[i - 1]);
    }
    ChainNeverRises(t, j, k);
  }

  /** In a sequence of counts where each is the same as or below the one before, a
      later count is the same as or below an earlier one. */
  lemma {:induction false} ChainNeverRises(cs: seq<Count>, j: nat, k: nat)
    requires j <= k < |cs|
    requires forall i :: 0 < i < |cs| ==> cs[i] == cs[i - 1] || cs[i].Less(cs[i - 1])
    ensures cs[k] == cs[j] || cs[k].Less(cs[j])
    decreases k
  {
    if j < k {
      ChainNeverRises(cs, j, k - 1);
    }
  }

  /** How the candidate loop of a round ended: all candidates processed, returned at
      candidate `k`, or raised while logging candidate `k`. */
  datatype SweepEnd = Swept | StoppedAt(k: nat) | RaisedAt(k: nat)

  /** The number of candidates the loop assessed. */
  function Processed(end: SweepEnd, n: nat): nat {
    match end
    case Swept => n
    case StoppedAt(k) => k + 1
    case RaisedAt(k) => k + 1
  }

  /** The first `|outs|` candidates carry the rank and message their assessment gives
      them from the values they started with; the others keep those values. */
  predicate Assessed(outs: seq<Assessment>, ranks0: seq<int>, messages0: seq<string>,
                  ranks: seq<int>, messages: seq<string>)
  {
    |ranks0| == |messages0| == |ranks| == |messages| && |outs| <= |ranks| &&
    (forall k :: 0 <= k < |outs| ==>
       ranks[k] == RankAfter(outs[k], ranks0[k]) && messages[k] == MessageAfter(outs[k], messages0[k])) &&
    (forall k :: |outs| <= k < |ranks| ==> ranks[k] == ranks0[k] && messages[k] == messages0[k])
  }

  predicate NoneStops(outs: seq<Assessment>) {
    forall k :: 0 <= k < |outs| ==> !Stops(outs[k])
  }

  /** Assessing the next candidate extends the record by that candidate alone. */
  lemma SweptExtends(outs: seq<Assessment>, ranks0: seq<int>, messages0: seq<string>,
                     ranks: seq<int>, messages: seq<string>, a: Assessment)
    requires Assessed(outs, ranks0, messages0, ranks, messages) && |outs| < |ranks|
    ensures var i := |outs|;
      Assessed(outs + [a], ranks0, messages0,
            ranks[i := RankAfter(a, ranks0[i])], messages[i := MessageAfter(a, messages0[i])])
  {
  }

  /** The responses still hold `fullTexts` and their parsed `texts`, and their ranks and
      messages are `ranks` and `messages`. */
  predicate Holds(rs: seq<LLMResponse>, fullTexts: seq<string>, texts: seq<string>, ranks: seq<int>,
                  messages: seq<string>)
    reads rs
  {
    |fullTexts| == |texts| == |ranks| == |messages| == |rs| &&
    forall k :: 0 <= k < |rs| ==> Carries(rs[k], fullTexts[k], texts[k], ranks[k], messages[k])
  }

  /** Response `r` holds the full text `fullText`, its parsed text `text`, and the rank
      and message given. */
  predicate Carries(r: LLMResponse, fullText: string, text: string, rank: int, message: string)
    reads r
  {
    r.fullText == fullText && r.parsedText == text && r.LengthInSync() && r.rank == rank && r.message == message
  }

  /** `texts` are what `parse_verilog` makes of `fullTexts`. */
  predicate ParsedAll(fullTexts: seq<string>, texts: seq<string>, scan: ModuleScan) {
    |fullTexts| == |texts| &&
    forall k {:trigger ParsedTextOf(fullTexts[k], scan)} :: 0 <= k < |texts| ==> texts[k] == ParsedTextOf(fullTexts[k], scan)
  }

  /** One turn of the candidate loop, stated over the round's trail of bests and
      assessments: candidate `idx` is assessed against the best the earlier ones left,
      and only its rank and message change. */
  method SweepStep(rs: seq<LLMResponse>, idx: nat, ghost fullTexts: seq<string>, ghost texts: seq<string>,
                   ghost ranks: seq<int>, ghost messages: seq<string>, iteration: nat, tools: LoopTools,
                   ghost outs: seq<Assessment>, ghost bests: seq<Best>,
                   best: Best, current: Option<SignalTable>, globalMax: LLMResponse)
      returns (stop: bool, newBest: Best, newCurrent: Option<SignalTable>, newGlobal: LLMResponse, ghost a: Assessment)
    requires forall i, j :: 0 <= i < j < |rs| ==> rs[i] != rs[j]
    requires idx < |rs| && Holds(rs, fullTexts, texts, ranks, messages) && ParsedAll(fullTexts, texts, tools.scan)
    requires Trail(RoundJudge(iteration, tools), texts, outs, bests) && |outs| == idx && best == bests[idx]
    requires BestValid(best) && best.mismatches != Finite(0)
    modifies rs[idx]
    ensures Holds(rs, fullTexts, texts, ranks[idx := RankAfter(a, ranks[idx])],
                  messages[idx := MessageAfter(a, messages[idx])])
    ensures Trail(RoundJudge(iteration, tools), texts, outs + [a], bests + [newBest])
    ensures stop == Stops(a) && newCurrent == CurrentAfter(a, current)
    ensures newGlobal == (if a.Analyzed? && a.improved && !stop then rs[idx] else globalMax)
    ensures !stop ==> BestValid(newBest) && newBest.mismatches != Finite(0)
    ensures stop ==> newBest.mismatches == Finite(0)
  {
    var response := rs[idx];
    assert texts[idx] == ParsedTextOf(fullTexts[idx], tools.scan);
    assert Parsed(response, tools.scan);
    assert forall k :: 0 <= k < |rs| && k != idx ==> rs[k] != response;
    stop, newBest, newCurrent, newGlobal, a := EvaluateCandidate(response, iteration, idx, tools, best, current, globalMax);
    StepNeverWorsens(iteration, idx, texts[idx], tools, best);
    assert a == RoundJudge(iteration, tools)(idx, texts[idx], best);
    TrailExtends(RoundJudge(iteration, tools), texts, outs, bests, a, newBest);
    ghost var ranks', messages' := ranks[idx := RankAfter(a, ranks[idx])], messages[idx := MessageAfter(a, messages[idx])];
    assert Carries(response, fullTexts[idx], texts[idx], ranks'[idx], messages'[idx]);
    forall k | 0 <= k < |rs|
      ensures Carries(rs[k], fullTexts[k], texts[k], ranks'[k], messages'[k])
    {
      if k != idx {
        assert rs[k] != response;
      }
    }
  }

  /** The `for idx, response in enumerate(responses)` loop, with the log step's read of
      `current_mismatches` (the log file itself is not modelled). `ranks0` and
      `messages0` are the ranks and messages the responses start with; `bests` are the
      best before each assessed candidate and after the last. */
  method SweepCandidates(rs: seq<LLMResponse>, ghost fullTexts: seq<string>, ghost texts: seq<string>,
                         ghost ranks0: seq<int>,
                         ghost messages0: seq<string>, iteration: nat, tools: LoopTools,
                         best: Best, current: Option<SignalTable>, globalMax: LLMResponse)
      returns (end: SweepEnd, newBest: Best, newCurrent: Option<SignalTable>, newGlobal: LLMResponse,
               ghost outcomes: seq<Assessment>, ghost bests: seq<Best>, ghost ranks: seq<int>,
               ghost messages: seq<string>)
    requires forall i, j :: 0 <= i < j < |rs| ==> rs[i] != rs[j]
    requires Holds(rs, fullTexts, texts, ranks0, messages0) && ParsedAll(fullTexts, texts, tools.scan)
    requires BestValid(best) && best.mismatches != Finite(0)
    modifies rs
    ensures Holds(rs, fullTexts, texts, ranks, messages)
    ensures |outcomes| == Processed(end, |rs|) <= |rs|
    ensures Trail(RoundJudge(iteration, tools), texts, outcomes, bests) && bests[0] == best && newBest == bests[|outcomes|]
    ensures Assessed(outcomes, ranks0, messages0, ranks, messages)
    ensures end.Swept? ==> NoneStops(outcomes)
    ensures end.StoppedAt? ==>
              NoneStops(outcomes[..end.k]) && Stops(outcomes[end.k]) && newBest.mismatches == Finite(0)
    ensures end.RaisedAt? ==> end.k == 0 && current.None? && !outcomes[0].Analyzed?
    ensures !end.StoppedAt? ==> BestValid(newBest) && newBest.mismatches != Finite(0)
    ensures current.Some? ==> !end.RaisedAt? && newCurrent.Some?
    ensures end.Swept? && |rs| > 0 ==> newCurrent.Some?
    ensures newGlobal == globalMax || (newGlobal in rs && newGlobal.rank == 1)
  {
    end := Swept;
    newBest, newCurrent, newGlobal := best, current, globalMax;
    outcomes, bests := [], [best];
    ranks, messages := ranks0, messages0;
    var idx := 0;
    while idx < |rs|
      invariant 0 <= idx <= |rs| && |outcomes| == idx
      invariant Holds(rs, fullTexts, texts, ranks, messages)
      invariant Trail(RoundJudge(iteration, tools), texts, outcomes, bests) && bests[0] == best && newBest == bests[idx]
      invariant BestValid(newBest) && newBest.mismatches != Finite(0)
      invariant NoneStops(outcomes)
      invariant Assessed(outcomes, ranks0, messages0, ranks, messages)
      invariant newGlobal == globalMax || exists j :: 0 <= j < idx && newGlobal == rs[j] && ranks[j] == 1
      invariant (idx > 0 || current.Some?) ==> newCurrent.Some?
    {
      var stop, nb, nc, ng, a := SweepStep(rs, idx, fullTexts, texts, ranks, messages, iteration, tools,
                                           outcomes, bests, newBest, newCurrent, newGlobal);
      SweptExtends(outcomes, ranks0, messages0, ranks, messages, a);
      ranks, messages := ranks[idx := RankAfter(a, ranks[idx])], messages[idx := MessageAfter(a, messages[idx])];
      ghost var earlier := outcomes;
      outcomes, bests := outcomes + [a], bests + [nb];
      newBest, newCurrent, newGlobal := nb, nc, ng;
      if stop {
        end := StoppedAt(idx);
        assert outcomes[..idx] == earlier;
        return;
      }
      if newCurrent.None? {
        end := RaisedAt(idx);
        return;
      }
      idx := idx + 1;
    }
  }

  /** The parsed texts `parse_verilog` gives the full texts `fullTexts`. */
  function ParsedTexts(fullTexts: seq<string>, scan: ModuleScan): seq<string> {
    seq(|fullTexts|, k requires 0 <= k < |fullTexts| => ParsedTextOf(fullTexts[k], scan))
  }

  /** Fresh candidates of `fullTexts` after the candidate loop assessed the first
      `|outcomes|` of them: each still holds its texts, the assessed ones carry the
      rank and message their assessment gives a fresh candidate, and the others are
      as they were made. */
  predicate Judged(rs: seq<LLMResponse>, fullTexts: seq<string>, scan: ModuleScan, outcomes: seq<Assessment>)
    reads rs
  {
    |rs| == |fullTexts| && |outcomes| <= |rs| &&
    forall k :: 0 <= k < |rs| ==>
      rs[k].fullText == fullTexts[k] && rs[k].parsedText == ParsedTextOf(fullTexts[k], scan) &&
      rs[k].LengthInSync() &&
      rs[k].rank == (if k < |outcomes| then RankAfter(outcomes[k], -3) else -3) &&
      rs[k].message == (if k < |outcomes| then MessageAfter(outcomes[k], "") else "")
  }

  /** The candidates `rs` of round `iteration`, made from `fullTexts`, were judged:
      `outcomes` and `bests` are the round's trail with `tools` over their parsed
      texts, from `best` to `newBest`, and each candidate carries what its
      assessment gave it. */
  predicate SweptTrail(rs: seq<LLMResponse>, fullTexts: seq<string>, iteration: nat, tools: LoopTools,
                       outcomes: seq<Assessment>, bests: seq<Best>, best: Best, newBest: Best)
    reads rs
  {
    Trail(RoundJudge(iteration, tools), ParsedTexts(fullTexts, tools.scan), outcomes, bests) &&
    bests[0] == best && newBest == bests[|outcomes|] && Judged(rs, fullTexts, tools.scan, outcomes)
  }

  /** The candidate loop over freshly parsed candidates, seen from the round: the
      trail of its assessments with `tools`, what they did to the candidates, how the
      loop ended and what it did to the best. */
  method SweepFresh(rs: seq<LLMResponse>, ghost fullTexts: seq<string>, iteration: nat, tools: LoopTools,
                    best: Best, current: Option<SignalTable>, globalMax: LLMResponse)
      returns (end: SweepEnd, newBest: Best, newCurrent: Option<SignalTable>, newGlobal: LLMResponse,
               ghost outcomes: seq<Assessment>, ghost bests: seq<Best>)
    requires CandidateList(rs, fullTexts, tools.scan)
    requires BestValid(best) && best.mismatches != Finite(0)
    modifies rs
    ensures |outcomes| == Processed(end, |rs|) <= |rs|
    ensures SweptTrail(rs, fullTexts, iteration, tools, outcomes, bests, best, newBest)
    ensures end.Swept? ==> NoneStops(outcomes)
    ensures end.StoppedAt? ==> NoneStops(outcomes[..end.k]) && Stops(outcomes[end.k])
    ensures end.RaisedAt? ==> end.k == 0 && current.None? && !outcomes[0].Analyzed?
    ensures end.StoppedAt? <==> newBest.mismatches == Finite(0)
    ensures newBest.mismatches == best.mismatches || newBest.mismatches.Less(best.mismatches)
    ensures !end.StoppedAt? ==> BestValid(newBest)
    ensures end.Swept? && |rs| > 0 ==> newCurrent.Some?
    ensures newGlobal == globalMax || (newGlobal in rs && newGlobal.rank == 1)
  {
    ghost var texts := ParsedTexts(fullTexts, tools.scan);
    ghost var ranks0, messages0 := seq(|rs|, _ => -3), seq(|rs|, _ => "");
    assert Holds(rs, fullTexts, texts, ranks0, messages0) by {
      forall k | 0 <= k < |rs|
        ensures Carries(rs[k], fullTexts[k], texts[k], -3, "")
      {
        assert Candidate(rs[k], k, fullTexts[k], tools.scan);
      }
    }
    ghost var ranks, messages;
    end, newBest, newCurrent, newGlobal, outcomes, bests, ranks, messages :=
      SweepCandidates(rs, fullTexts, texts, ranks0, messages0, iteration, tools, best, current, globalMax);
    RoundJudgeNeverWorsens(iteration, tools);
    TrailNeverWorsens(RoundJudge(iteration, tools), texts, outcomes, bests);
    forall k | 0 <= k < |rs|
      ensures rs[k].rank == (if k < |outcomes| then RankAfter(outcomes[k], -3) else -3)
      ensures rs[k].message == (if k < |outcomes| then MessageAfter(outcomes[k], "") else "")
    {
      assert Carries(rs[k], fullTexts[k], texts[k], ranks[k], messages[k]);
      assert ranks0[k] == -3 && messages0[k] == "";
    }
  }

  /** Python's tuple order on `(rank, -parsed_length)`: a higher rank, or the same rank
      and a shorter parsed text. */
  predicate Outranks(a: (int, int), b: (int, int)) {
    a.0 > b.0 || (a.0 == b.0 && a.1 < b.1)
  }

  /** The `(rank, parsed_length)` of each response. */
  function Keys(rs: seq<LLMResponse>): seq<(int, int)>
    reads rs
  {
    seq(|rs|, k requires 0 <= k < |rs| reads rs => (rs[k].rank, rs[k].parsedLength))
  }

  /** `max(responses, key=...)`: the index of a response no other outranks, the first
      such one (Python's `max` keeps the first of equal keys). */
  function MaxRankIndex(keys: seq<(int, int)>): (w: nat)
    requires |keys| > 0
    ensures w < |keys|
    ensures forall j :: 0 <= j < |keys| ==> !Outranks(keys[j], keys[w])
    ensures forall j :: 0 <= j < w ==> Outranks(keys[w], keys[j])
  {
    if |keys| == 1 then 0
    else
      var w := MaxRankIndex(keys[..|keys| - 1]);
      assert forall j :: 0 <= j < |keys| - 1 ==> keys[j] == keys[..|keys| - 1][j];
      if Outranks(keys[|keys| - 1], keys[w]) then |keys| - 1 else w
  }

  function RemovedAt(ms: seq<Message>, i: int): seq<Message> {
    if 0 <= i < |ms| then ms[..i] + ms[i + 1..] else ms
  }

  /** The end of a round: the winner's text as the assistant's answer, messages 2
      removed twice, the winner's message as the next user turn. */
  function Pruned(ms: seq<Message>, answer: string, feedback: string): seq<Message> {
    RemovedAt(RemovedAt(ms + [Message("assistant", answer)], 2), 2) + [Message("user", feedback)]
  }

  /** Pruning keeps the two seed messages and drops the two oldest after them, which
      with three messages or fewer takes the new answer along. */
  lemma PrunedShape(ms: seq<Message>, answer: string, feedback: string)
    requires |ms| >= 2
    ensures |ms| <= 3 ==> Pruned(ms, answer, feedback) == ms[..2] + [Message("user", feedback)]
    ensures |ms| >= 4 ==>
              Pruned(ms, answer, feedback) ==
              ms[..2] + ms[4..] + [Message("assistant", answer), Message("user", feedback)]
  {
    var a := Message("assistant", answer);
    var once := RemovedAt(ms + [a], 2);
    if |ms| == 2 {
      assert once == ms[..2];
    } else {
      assert once == ms[..2] + ms[3..] + [a];
      if |ms| >= 4 {
        assert RemovedAt(once, 2) == ms[..2] + ms[4..] + [a];
      } else {
        assert RemovedAt(once, 2) == ms[..2];
      }
    }
  }

  /** With a best attempt the conversation grows by one message per round: the
      best-so-far message is added and pruning drops only two. */
  lemma ConversationGrows(ms: seq<Message>, bestMessage: Message, answer: string, feedback: string)
    requires |ms| >= 3
    ensures |Pruned(ms + [bestMessage], answer, feedback)| == |ms| + 1
    ensures Pruned(ms + [bestMessage], answer, feedback)[..2] == ms[..2]
  {
    PrunedShape(ms + [bestMessage], answer, feedback);
  }

  datatype RoundEnd = Continued | Stopped | Aborted(error: LoopError)

  /** `(rank, parsed_length)` of a response. */
  function Key(r: LLMResponse): (int, int)
    reads r
  {
    (r.rank, r.parsedLength)
  }

  /** Response `w` is what `max(responses, key=...)` returns: no response outranks it,
      and it outranks every response before it. */
  predicate Winner(rs: seq<LLMResponse>, w: nat)
    reads rs
  {
    w < |rs| &&
    (forall j :: 0 <= j < |rs| ==> !Outranks(Key(rs[j]), Key(rs[w]))) &&
    (forall j :: 0 <= j < w ==> Outranks(Key(rs[w]), Key(rs[j])))
  }

  /** The `max` call choosing the response the round answers with. */
  method PickWinner(rs: seq<LLMResponse>) returns (w: nat)
    requires |rs| > 0
    ensures Winner(rs, w)
  {
    var keys := Keys(rs);
    w := MaxRankIndex(keys);
    assert forall j :: 0 <= j < |rs| ==> keys[j] == Key(rs[j]);
  }

  /** The end of a round on the conversation: the winner's text as the assistant's
      answer, message 2 removed twice, the winner's message as the next user turn. */
  method AnswerAndPrune(conv: Conversation, answer: string, feedback: string)
    requires |conv.messages| >= 2
    modifies conv
    ensures conv.messages == Pruned(old(conv.messages), answer, feedback)
    ensures conv.messages[..2] == old(conv.messages[..2]) &&
            |conv.messages| == (if |old(conv.messages)| <= 3 then 3 else |old(conv.messages)|)
  {
    PrunedShape(conv.messages, answer, feedback);
    conv.AddMessage("assistant", answer);
    conv.RemoveMessage(2);
    conv.RemoveMessage(2);
    conv.AddMessage("user", feedback);
  }

  /** How a round ends after its sweep over `n` candidates: stopped at a zero count,
      raised on the unbound `current_mismatches`, raised by `max` of no candidates,
      or continued. */
  function RoundEndOf(sweep: SweepEnd, n: nat): RoundEnd {
    if sweep.StoppedAt? then Stopped
    else if sweep.RaisedAt? then Aborted(UnboundCurrentMismatches)
    else if n == 0 then Aborted(EmptyCandidateList)
    else Continued
  }

  /** What the end of a round says about its trail: a continued round assessed every
      candidate and none stopped, a stopped one ends on a stopping assessment, the
      unbound `current_mismatches` raises only at the first candidate of a round that
      has no table yet, and `max` raises exactly on no candidates. */
  lemma RoundEndFacts(sweep: SweepEnd, n: nat, outcomes: seq<Assessment>, current: Option<SignalTable>,
                      newBest: Best, newCurrent: Option<SignalTable>)
    requires |outcomes| == Processed(sweep, n) <= n
    requires sweep.Swept? ==> NoneStops(outcomes)
    requires sweep.StoppedAt? ==> NoneStops(outcomes[..sweep.k]) && Stops(outcomes[sweep.k])
    requires sweep.RaisedAt? ==> sweep.k == 0 && current.None? && !outcomes[0].Analyzed?
    requires sweep.StoppedAt? <==> newBest.mismatches == Finite(0)
    requires !sweep.StoppedAt? ==> BestValid(newBest)
    requires sweep.Swept? && n > 0 ==> newCurrent.Some?
    ensures var end := RoundEndOf(sweep, n);
            (end.Continued? ==> |outcomes| == n > 0 && NoneStops(outcomes)) &&
            (end.Stopped? ==> |outcomes| > 0 && Stops(outcomes[|outcomes| - 1])) &&
            (end == Aborted(UnboundCurrentMismatches) ==>
               current.None? && |outcomes| == 1 && !outcomes[0].Analyzed?) &&
            (end == Aborted(EmptyCandidateList) <==> n == 0) &&
            end != Aborted(InvalidModelType) &&
            (end.Continued? ==> BestValid(newBest) && newBest.mismatches != Finite(0) && newCurrent.Some?) &&
            (end.Stopped? <==> newBest.mismatches == Finite(0))
  {
  }

  /** The sweep of a round and how the round ends: stopped at a zero count, raised
      on the unbound `current_mismatches`, raised by `max` of no candidates, or
      continued. `outcomes` and `bests` are the round's trail. */
  method SweepRound(rs: seq<LLMResponse>, ghost fullTexts: seq<string>, iteration: nat,
                     tools: LoopTools, best: Best, current: Option<SignalTable>, globalMax: LLMResponse)
      returns (end: RoundEnd, newBest: Best, newCurrent: Option<SignalTable>, newGlobal: LLMResponse, ghost outcomes: seq<Assessment>, ghost bests: seq<Best>)
    requires CandidateList(rs, fullTexts, tools.scan)
    requires BestValid(best) && best.mismatches != Finite(0)
    modifies rs
    ensures SweptTrail(rs, fullTexts, iteration, tools, outcomes, bests, best, newBest)
    ensures end.Continued? ==> |outcomes| == |rs| > 0 && NoneStops(outcomes)
    ensures end.Stopped? ==> |outcomes| > 0 && Stops(outcomes[|outcomes| - 1])
    ensures end == Aborted(UnboundCurrentMismatches) ==>
              current.None? && |outcomes| == 1 && !outcomes[0].Analyzed?
    ensures end == Aborted(EmptyCandidateList) <==> |rs| == 0
    ensures end != Aborted(InvalidModelType)
    ensures end.Continued? ==> BestValid(newBest) && newBest.mismatches != Finite(0) && newCurrent.Some?
    ensures end.Stopped? <==> newBest.mismatches == Finite(0)
    ensures newBest.mismatches == best.mismatches || newBest.mismatches.Less(best.mismatches)
    ensures newGlobal == globalMax || (newGlobal in rs && newGlobal.rank == 1)
  {
    var sweep;
    sweep, newBest, newCurrent, newGlobal, outcomes, bests :=
      SweepFresh(rs, fullTexts, iteration, tools, best, current, globalMax);
    end := RoundEndOf(sweep, |rs|);
    RoundEndFacts(sweep, |rs|, outcomes, current, newBest, newCurrent);
  }

  /** A round once its candidates exist: assess them all, then answer with the
      winner and prune, unless the loop stopped or raised on the way. `outcomes`
      and `bests` are the round's trail; the winner is chosen by the ranks and
      messages those assessments gave the candidates. */
  method AnswerRound(conv: Conversation, rs: seq<LLMResponse>, ghost fullTexts: seq<string>, iteration: nat,
                     tools: LoopTools, best: Best, current: Option<SignalTable>, globalMax: LLMResponse)
      returns (end: RoundEnd, newBest: Best, newCurrent: Option<SignalTable>, newGlobal: LLMResponse, ghost w: nat,
               ghost outcomes: seq<Assessment>, ghost bests: seq<Best>)
    requires |conv.messages| >= 2 && CandidateList(rs, fullTexts, tools.scan)
    requires BestValid(best) && best.mismatches != Finite(0)
    modifies conv, rs
    ensures SweptTrail(rs, fullTexts, iteration, tools, outcomes, bests, best, newBest)
    ensures end.Continued? ==> |outcomes| == |rs| > 0 && NoneStops(outcomes)
    ensures end.Stopped? ==> |outcomes| > 0 && Stops(outcomes[|outcomes| - 1])
    ensures end == Aborted(UnboundCurrentMismatches) ==>
              current.None? && |outcomes| == 1 && !outcomes[0].Analyzed?
    ensures end == Aborted(EmptyCandidateList) <==> |rs| == 0
    ensures end != Aborted(InvalidModelType)
    ensures !end.Continued? ==> conv.messages == old(conv.messages)
    ensures end.Continued? ==>
              Winner(rs, w) && conv.messages == Pruned(old(conv.messages), rs[w].parsedText, rs[w].message)
    ensures end.Continued? ==>
              conv.messages[..2] == old(conv.messages[..2]) &&
              |conv.messages| == (if |old(conv.messages)| <= 3 then 3 else |old(conv.messages)|)
    ensures end.Continued? ==> BestValid(newBest) && newBest.mismatches != Finite(0) && newCurrent.Some?
    ensures end.Stopped? <==> newBest.mismatches == Finite(0)
    ensures newBest.mismatches == best.mismatches || newBest.mismatches.Less(best.mismatches)
    ensures newGlobal == globalMax || (newGlobal in rs && newGlobal.rank == 1)
  {
    w := 0;
    end, newBest, newCurrent, newGlobal, outcomes, bests :=
      SweepRound(rs, fullTexts, iteration, tools, best, current, globalMax);
    if end.Continued? {
      w := AnswerWinner(conv, rs);
    }
  }

  /** The end of a round that did not stop: the candidate of the highest rank answers,
      and the conversation is pruned. */
  method AnswerWinner(conv: Conversation, rs: seq<LLMResponse>) returns (w: nat)
    requires |conv.messages| >= 2 && |rs| > 0
    modifies conv
    ensures Winner(rs, w) && conv.messages == Pruned(old(conv.messages), rs[w].parsedText, rs[w].message)
    ensures conv.messages[..2] == old(conv.messages[..2]) &&
            |conv.messages| == (if |old(conv.messages)| <= 3 then 3 else |old(conv.messages)|)
  {
    w := PickWinner(rs);
    var maxRankResponse := rs[w];
    AnswerAndPrune(conv, maxRankResponse.parsedText, maxRankResponse.message);
  }

  /** The body of the `while` loop after its first step: generate, assess every
      candidate, then answer with the winner and prune. `responses` are the
      candidates generated from the conversation, and `outcomes` and `bests` the
      round's trail of their assessments with `tools`. */
  method RunRound(iteration: nat, conv: Conversation, family: Option<string>, id: string, n: int,
                  tools: LoopTools, best: Best, current: Option<SignalTable>, globalMax: LLMResponse)
      returns (end: RoundEnd, newBest: Best, newCurrent: Option<SignalTable>, newGlobal: LLMResponse,
               ghost responses: seq<LLMResponse>, ghost w: nat, ghost outcomes: seq<Assessment>,
               ghost bests: seq<Best>)
    requires |conv.messages| >= 2
    requires BestValid(best) && best.mismatches != Finite(0)
    modifies conv
    ensures end.Aborted? && end.error == InvalidModelType <==>
              CandidateTexts(family, id, old(conv.messages), n, tools).None?
    ensures CandidateTexts(family, id, old(conv.messages), n, tools).Some? ==>
              var fullTexts := CandidateTexts(family, id, old(conv.messages), n, tools).value;
              SweptTrail(responses, fullTexts, iteration, tools, outcomes, bests, best, newBest) &&
              forall k :: 0 <= k < |responses| ==> fresh(responses[k])
    ensures CandidateTexts(family, id, old(conv.messages), n, tools).None? ==> outcomes == [] && bests == [best]
    ensures bests[0] == best && newBest == bests[|outcomes|]
    ensures end.Continued? ==> |outcomes| == |responses| > 0 && NoneStops(outcomes)
    ensures end.Stopped? ==> |outcomes| > 0 && Stops(outcomes[|outcomes| - 1])
    ensures end == Aborted(UnboundCurrentMismatches) ==>
              current.None? && |outcomes| == 1 && !outcomes[0].Analyzed?
    ensures !end.Continued? ==> conv.messages == old(conv.messages)
    ensures end.Continued? ==>
              Winner(responses, w) &&
              conv.messages == Pruned(old(conv.messages), responses[w].parsedText, responses[w].message)
    ensures end.Continued? ==>
              conv.messages[..2] == old(conv.messages[..2]) &&
              |conv.messages| == (if |old(conv.messages)| <= 3 then 3 else |old(conv.messages)|)
    ensures end.Continued? ==> BestValid(newBest) && newBest.mismatches != Finite(0) && newCurrent.Some?
    ensures end.Stopped? <==> newBest.mismatches == Finite(0)
    ensures newBest.mismatches == best.mismatches || newBest.mismatches.Less(best.mismatches)
    ensures newGlobal == globalMax || (fresh(newGlobal) && newGlobal.rank == 1)
  {
    ghost var before := conv.messages;
    responses, w, outcomes, bests := [], 0, [], [best];
    newBest, newCurrent, newGlobal := best, current, globalMax;
    var generated := GenerateVerilogResponses(conv, family, id, n, tools);
    if generated.Err? {
      end := Aborted(generated.error);
    } else {
      var rs := generated.value;
      responses := rs;
      end, newBest, newCurrent, newGlobal, w, outcomes, bests :=
        AnswerRound(conv, rs, CandidateTexts(family, id, before, n, tools).value, iteration, tools, best, current,
                    globalMax);
    }
  }

  // ---------------------------------------------------------------------------
  // verilog_loop
  // ---------------------------------------------------------------------------

  /** What `verilog_loop` ends with: the response it returns, or the exception it raises. */
  datatype LoopResult = Returned(response: LLMResponse) | Raised(error: LoopError)

  /** `global_max_response` before any improvement. */
  predicate IsSentinel(r: LLMResponse)
    reads r
  {
    r.iteration == -3 && r.responseNum == -3 && r.fullText == "" && r.rank == -3
  }

  /** What the last round saw and did: its number, the conversation its model was asked with,
      the family and id of that model, the parsed texts of the candidates, the
      trail of their assessments, and the index of the candidate it answered with
      (0 when it did not answer). */
  datatype RoundTrace = RoundTrace(iteration: nat, messages: seq<Message>, family: Option<string>, id: string,
                                   texts: seq<string>, outcomes: seq<Assessment>, bests: seq<Best>, winner: nat)

  /** `verilog_loop`: rounds until zero mismatches or until the round numbered
      `max_iterations` (at least round 0), with the model of each round taken from
      the mixed-model schedule when one is given. `last` records the last round. */
  method RunVerilogLoop(designPrompt: string, maxIterations: int, modelType: string, modelId: string,
                        numCandidates: int, mixedModelConfig: seq<Entry>, tools: LoopTools)
      returns (r: LoopResult, conv: Conversation, ghost rounds: nat, ghost finalBest: Count,
               ghost last: RoundTrace)
    ensures fresh(conv)
    ensures |conv.messages| >= 2 &&
            conv.messages[..2] == [Message("system", SystemPrompt), Message("user", designPrompt)]
    ensures 1 <= rounds <= Max0(maxIterations) + 1
    ensures |conv.messages| <= rounds + 2
    ensures last.iteration == rounds - 1
    ensures RoundRecorded(last, numCandidates, mixedModelConfig, modelType, modelId, tools)
    ensures finalBest == LastBest(last).mismatches
    ensures r != Raised(InvalidModelType) ==>
              CandidateTexts(last.family, last.id, last.messages, numCandidates, tools).Some?
    ensures finalBest == Finite(0) ==> r.Returned? && |last.outcomes| > 0 && Stops(last.outcomes[|last.outcomes| - 1])
    ensures r.Returned? && rounds <= Max0(maxIterations) ==>
              |last.outcomes| > 0 && Stops(last.outcomes[|last.outcomes| - 1])
    ensures r.Returned? && finalBest != Finite(0) ==> rounds == Max0(maxIterations) + 1
    ensures r.Returned? ==> r.response.rank == 1 || IsSentinel(r.response)
    ensures r == Raised(UnboundCurrentMismatches) ==> rounds == 1
  {
    conv := new Conversation();
    conv.AddMessage("system", SystemPrompt);
    conv.AddMessage("user", designPrompt);
    var success := false;
    var timeout := false;
    var iterations: nat := 0;
    var globalMaxResponse := new LLMResponse(-3, -3, "");
    var bestState := StartBest;
    var currentMismatches: Option<SignalTable> := None;
    rounds := 0;
    last := RoundTrace(0, [], None, "", [], [], [bestState], 0);
    while !(success || timeout)
      invariant !success
      invariant rounds == iterations <= Max0(maxIterations) + 1
      invariant timeout <==> iterations >= 1 && iterations - 1 >= maxIterations
      invariant |conv.messages| >= 2 &&
                conv.messages[..2] == [Message("system", SystemPrompt), Message("user", designPrompt)]
      invariant |conv.messages| <= iterations + 2
      invariant BestValid(bestState) && bestState.mismatches != Finite(0)
      invariant globalMaxResponse.rank == 1 || IsSentinel(globalMaxResponse)
      invariant iterations > 0 ==> currentMismatches.Some?
      invariant iterations > 0 ==>
                  last.iteration == iterations - 1 &&
                  RoundRecorded(last, numCandidates, mixedModelConfig, modelType, modelId, tools) &&
                  bestState == LastBest(last) &&
                  CandidateTexts(last.family, last.id, last.messages, numCandidates, tools).Some?
      decreases Max0(maxIterations) + 1 - iterations
    {
      var end, newBest, newCurrent, newGlobal;
      end, newBest, newCurrent, newGlobal, last :=
        LoopIteration(iterations, conv, numCandidates, mixedModelConfig, modelType, modelId, tools, bestState,
                      currentMismatches, globalMaxResponse);
      rounds := rounds + 1;
      if end.Aborted? {
        r, finalBest := Raised(end.error), newBest.mismatches;
        break;
      }
      if end.Stopped? {
        r, finalBest := Returned(newGlobal), newBest.mismatches;
        break;
      }
      bestState, currentMismatches, globalMaxResponse := newBest, newCurrent, newGlobal;
      timeout := iterations >= maxIterations;
      iterations := iterations + 1;
    }
    if timeout {
      r, finalBest := Returned(globalMaxResponse), bestState.mismatches;
    }
  }

  /** One turn of the `while` loop of `verilog_loop`: feed back the best attempt, take
      the model the schedule names for this round, then run the round. `last` is the
      trace of the round: it was asked with the conversation the feedback left, and
      `RoundLeft` says what conversation it leaves. */
  method LoopIteration(iteration: nat, conv: Conversation, n: int, cfg: seq<Entry>, modelType: string,
                       modelId: string, tools: LoopTools, best: Best, current: Option<SignalTable>,
                       globalMax: LLMResponse)
      returns (end: RoundEnd, newBest: Best, newCurrent: Option<SignalTable>, newGlobal: LLMResponse,
               ghost last: RoundTrace)
    requires |conv.messages| >= 2
    requires BestValid(best) && best.mismatches != Finite(0)
    requires iteration > 0 ==> current.Some?
    modifies conv
    ensures last.iteration == iteration
    ensures last.messages ==
              old(conv.messages) + (if HasBest(best) then [Message("user", Join("\n", BestSoFarLines(best)))] else [])
    ensures RoundRecorded(last, n, cfg, modelType, modelId, tools)
    ensures RoundLeft(last, end, conv.messages)
    ensures newBest == LastBest(last)
    ensures end.Aborted? && end.error == InvalidModelType <==>
              CandidateTexts(last.family, last.id, last.messages, n, tools).None?
    ensures end.Stopped? ==> |last.outcomes| > 0 && Stops(last.outcomes[|last.outcomes| - 1])
    ensures end.Stopped? <==> newBest.mismatches == Finite(0)
    ensures end == Aborted(UnboundCurrentMismatches) ==> iteration == 0
    ensures end.Continued? ==> BestValid(newBest) && newBest.mismatches != Finite(0) && newCurrent.Some?
    ensures newGlobal == globalMax || (fresh(newGlobal) && newGlobal.rank == 1)
    ensures |conv.messages| >= 2 && conv.messages[..2] == old(conv.messages[..2])
    ensures |conv.messages| <= |old(conv.messages)| + 1
    ensures end.Continued? && HasBest(best) && |old(conv.messages)| >= 3 ==>
              |conv.messages| == |old(conv.messages)| + 1
  {
    ghost var before := conv.messages;
    FeedBackBest(conv, best);
    assert conv.messages[..2] == old(conv.messages[..2]);
    var family, id := ChooseModel(iteration, cfg, modelType, modelId);
    end, newBest, newCurrent, newGlobal, last :=
      TracedRound(iteration, conv, family, id, n, tools, best, current, globalMax);
    if end.Continued? && HasBest(best) && |before| >= 3 {
      ConversationGrows(before, Message("user", Join("\n", BestSoFarLines(best))), last.texts[last.winner],
                        MessageAfter(last.outcomes[last.winner], ""));
    }
  }

  /** A round run with the model `family`/`id`, seen through its trace: `last` holds
      the conversation it was asked with, that model, the parsed texts of the
      candidates, the trail of their assessments and the candidate it answered with. */
  method TracedRound(iteration: nat, conv: Conversation, family: Option<string>, id: string, n: int,
                     tools: LoopTools, best: Best, current: Option<SignalTable>, globalMax: LLMResponse)
      returns (end: RoundEnd, newBest: Best, newCurrent: Option<SignalTable>, newGlobal: LLMResponse,
               ghost last: RoundTrace)
    requires |conv.messages| >= 2
    requires BestValid(best) && best.mismatches != Finite(0)
    modifies conv
    ensures last.iteration == iteration && last.messages == old(conv.messages) &&
            last.family == family && last.id == id
    ensures RoundTraced(last, n, tools)
    ensures RoundLeft(last, end, conv.messages)
    ensures newBest == LastBest(last)
    ensures end.Aborted? && end.error == InvalidModelType <==>
              CandidateTexts(family, id, old(conv.messages), n, tools).None?
    ensures end.Stopped? ==> |last.outcomes| > 0 && Stops(last.outcomes[|last.outcomes| - 1])
    ensures end.Stopped? <==> newBest.mismatches == Finite(0)
    ensures end == Aborted(UnboundCurrentMismatches) ==> current.None?
    ensures end.Continued? ==> BestValid(newBest) && newBest.mismatches != Finite(0) && newCurrent.Some?
    ensures newGlobal == globalMax || (fresh(newGlobal) && newGlobal.rank == 1)
    ensures end.Continued? ==>
              conv.messages[..2] == old(conv.messages[..2]) &&
              |conv.messages| == (if |old(conv.messages)| <= 3 then 3 else |old(conv.messages)|)
  {
    ghost var asked := conv.messages;
    ghost var responses, w, outcomes, bests;
    end, newBest, newCurrent, newGlobal, responses, w, outcomes, bests :=
      RunRound(iteration, conv, family, id, n, tools, best, current, globalMax);
    ghost var fullTexts := CandidateTexts(family, id, asked, n, tools);
    ghost var texts := if fullTexts.Some? then ParsedTexts(fullTexts.value, tools.scan) else [];
    if end.Continued? {
      JudgedWinner(responses, fullTexts.value, tools.scan, outcomes, w);
    }
    last := RoundTrace(iteration, asked, family, id, texts, outcomes, bests, if end.Continued? then w else 0);
    assert CandidateTexts(last.family, last.id, last.messages, n, tools) == fullTexts;
    assert last.outcomes == outcomes;
  }

  /** The response `max` picks among judged candidates is the one `TextWinner` names
      over their parsed texts and assessments, and it carries that parsed text and
      the message its assessment gives. */
  lemma JudgedWinner(rs: seq<LLMResponse>, fullTexts: seq<string>, scan: ModuleScan, outcomes: seq<Assessment>,
                     w: nat)
    requires Judged(rs, fullTexts, scan, outcomes) && |outcomes| == |rs| && Winner(rs, w)
    ensures TextWinner(ParsedTexts(fullTexts, scan), outcomes, w)
    ensures rs[w].parsedText == ParsedTexts(fullTexts, scan)[w] && rs[w].message == MessageAfter(outcomes[w], "")
  {
    var texts := ParsedTexts(fullTexts, scan);
    forall j | 0 <= j < |rs|
      ensures Key(rs[j]) == TextKey(texts, outcomes, j)
    {
    }
  }

  /** `family` and `id` are the model of round `iteration`: the configured one
      without a schedule; with one, the family and id of an entry with the greatest
      start not after the round, the first such entry of the schedule on a tie
      (`FirstLatest`), and no family (`None`) when no entry has started. */
  ghost predicate ModelFor(iteration: nat, cfg: seq<Entry>, modelType: string, modelId: string,
                           family: Option<string>, id: string)
  {
    (|cfg| == 0 ==> family == Some(modelType) && id == modelId) &&
    (|cfg| > 0 ==> (family.None? <==> forall k :: 0 <= k < |cfg| ==> cfg[k].1.startIteration > iteration)) &&
    (|cfg| > 0 && family.Some? ==>
       exists info :: LatestStarted(cfg, iteration, info) && (family.value, id) == (info.modelFamily, info.modelId)) &&
    (|cfg| > 0 && family.Some? ==>
       FirstLatest(Values(cfg), iteration).Some? &&
       (family.value, id) == (FirstLatest(Values(cfg), iteration).value.modelFamily,
                              FirstLatest(Values(cfg), iteration).value.modelId))
  }

  /** `if mixed_model_config: model_type, model_id = get_iteration_model(...)`; the
      `(None, None)` of an unstarted schedule is the family `None`. */
  method ChooseModel(iteration: nat, cfg: seq<Entry>, modelType: string, modelId: string)
      returns (family: Option<string>, id: string)
    ensures ModelFor(iteration, cfg, modelType, modelId, family, id)
  {
    family, id := Some(modelType), modelId;
    if |cfg| > 0 {
      var scheduled := GetIterationModel(iteration, cfg);
      if scheduled.Some? {
        family, id := Some(scheduled.value.0), scheduled.value.1;
      } else {
        family, id := None, "";
      }
    }
  }

  /** The best a round's trace ends with. */
  function LastBest(last: RoundTrace): Best {
    if |last.outcomes| < |last.bests| then last.bests[|last.outcomes|] else StartBest
  }

  /** `last` is the trace of round `last.iteration`: its assessments form the trail of
      that round with `tools` over the parsed texts of the candidates the model gave
      for `last.messages`, and the model is the one the schedule names, or the
      configured one when there is no schedule. */
  ghost predicate RoundRecorded(last: RoundTrace, n: int, cfg: seq<Entry>, modelType: string, modelId: string,
                                tools: LoopTools)
  {
    RoundTraced(last, n, tools) && ModelFor(last.iteration, cfg, modelType, modelId, last.family, last.id)
  }

  /** The trail part of `RoundRecorded`: the assessments of `last` form the trail of
      round `last.iteration` with `tools` over the parsed texts of the candidates the
      model `last.family`/`last.id` gave for `last.messages`. */
  ghost predicate RoundTraced(last: RoundTrace, n: int, tools: LoopTools) {
    Trail(RoundJudge(last.iteration, tools), last.texts, last.outcomes, last.bests) &&
    (CandidateTexts(last.family, last.id, last.messages, n, tools).Some? ==>
       last.texts == ParsedTexts(CandidateTexts(last.family, last.id, last.messages, n, tools).value, tools.scan))
  }

  /** The `(rank, parsed_length)` key of candidate `j` of a round, from its parsed
      text and the rank its assessment gives a fresh candidate. */
  function TextKey(texts: seq<string>, outcomes: seq<Assessment>, j: nat): (int, int)
    requires j < |texts| && j < |outcomes|
  {
    (RankAfter(outcomes[j], -3), |texts[j]|)
  }

  /** Candidate `w` is what `max(responses, key=...)` returns over a round's parsed
      texts and their assessments: no candidate outranks it, and it outranks every
      candidate before it. */
  ghost predicate TextWinner(texts: seq<string>, outcomes: seq<Assessment>, w: nat) {
    |outcomes| == |texts| && w < |texts| &&
    (forall j :: 0 <= j < |texts| ==> !Outranks(TextKey(texts, outcomes, j), TextKey(texts, outcomes, w))) &&
    (forall j :: 0 <= j < w ==> Outranks(TextKey(texts, outcomes, w), TextKey(texts, outcomes, j)))
  }

  /** `after` is the conversation round `last` leaves: the one it was asked with when it
      stopped or raised; otherwise that one answered with the parsed text of the winner
      and pruned, with the message the winner's assessment gives as the next user turn. */
  ghost predicate RoundLeft(last: RoundTrace, end: RoundEnd, after: seq<Message>) {
    (!end.Continued? ==> after == last.messages) &&
    (end.Continued? ==>
       TextWinner(last.texts, last.outcomes, last.winner) &&
       after == Pruned(last.messages, last.texts[last.winner], MessageAfter(last.outcomes[last.winner], "")))
  }
}
