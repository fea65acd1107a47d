# Autochip refinement loop in Dafny

Autochip asks a language model for a Verilog design. For each candidate the model returns, it runs the compiler and the simulator. Compiler errors and simulation mismatches go back into the conversation, and the best design is kept until one simulates with zero mismatches or the iterations run out.

This project models the bookkeeping around the model and simulator calls and proves properties of it:

- the conversation log;
- the text transforms that turn a model answer into a Verilog file;
- the scanners over compiler and simulator output;
- the mixed-model schedule;
- the ranking, best-so-far tracking, winner choice and conversation pruning of the two refinement loops.

The model services and the Riviera-PRO simulator stay outside. They enter as function-typed parameters, so every property holds whatever those services answer.

| file | module | models |
|---|---|---|
| `common.dfy` | `Common` | `Option`, `Result`, and `Count` (`Finite(n)` or `Infinite`), which stands for the `float('inf')` sentinel |
| `text.dfy` | `TextUtil` | the Python `str` operations used: `strip`, `split('\n')`, `join`, `in`, `find`, `lower` on ASCII |
| `conversation.dfy` | `ConversationLog` | `conversation.py`: `Conversation`, a class over a `seq` of messages |
| `config_handler.dfy` | `ConfigHandler` | `validate_mixed_model_config` |
| `verilog_handling.dfy` | `VerilogHandling` | the cleaners, the indenter, the fragment rule of the module finder, both output scanners and the schedule lookup of `verilog_handling.py` |
| `languagemodels.dfy` | `LanguageModels` | `_format_prompt` and the `LLMResponse` class |
| `verilog_loop.dfy` | `VerilogLoop` | `generate_verilog_responses` and `verilog_loop` |
| `generate_verilog.dfy` | `GenerateVerilog` | the text handling of `generate_verilog.py` and the loop of its `main` |

The code's form is kept:

- `Conversation` and `LLMResponse` are classes whose methods update fields in place.
- The loops of the source are `while`/`for` loops. Each is proved against a function that states the result they build; every other property is proved about that function.
- The pure substitution chains are functions.

## Behaviour as the code has it

Where the code's behaviour is easy to misread, the model follows the code:

- **Returned response.** `verilog_loop` returns on the first candidate with zero mismatches. It returns the `global_max_response` from *before* that candidate (`verilog_handling.py:241-243`), which is the rank -3 sentinel when no earlier candidate improved. `RunVerilogLoop` only promises a rank-1 response or the sentinel.
- **Round count.** `timeout` is computed before the increment (`verilog_handling.py:274-275`). The loop therefore runs `max_iterations + 1` rounds, and at least one round for any `max_iterations`.
- **Ending.** `success` is never set in `verilog_loop`. The loop ends only by the return above, by an exception, or after the last round.
- **Conversation growth.** The conversation grows by one message per round once a best design exists. The best-so-far message is added at the head of the round (`:198`), and pruning removes only two messages (`:269-272`). `ConversationGrows` states this.
- **Simulator result order.** The simulator returns `(ok, stdout, stderr)`, but both loops unpack it as `(return_code, stderr, stdout)`. What they analyse as "stdout" is the simulator's third component, and the model does the same.
- **Unbound variable.** The per-candidate log reads `current_mismatches` (`:261`). It is unbound until a simulation output has been analysed, so a first candidate of round 0 that fails to compile, or that gives no output, raises `UnboundLocalError`. This is `LoopError.UnboundCurrentMismatches`.
- **Ranking call.** `calculate_rank` calls `compile_and_simulate_verilog`, which `verilog_handling.py` does not define. The call therefore always ends in the `except` branch. `CalculateRank` takes the call's outcome as a parameter, so it covers the branches the code has; the `Failed` case is the one the code reaches.
- **Compiled file.** For candidate `idx` of round `i` the loop compiles the file `iter<i>/response<idx>/<module>.sv` (`verilog_handling.py:206-215`). Nothing in `verilog_loop` writes the candidate's parsed text to that file; the only file it writes is `log.txt` (`:256-264`). So the compile and simulate results depend only on the round and the index: `LoopTools.compile` and `LoopTools.simulate` take those two numbers and not the candidate's text.

One place departs from the code, and it is listed under Findings. `HumanInput.generate` returns the edited text as one string, and `generate_verilog_responses` enumerates that string, so as written each character becomes a candidate (`VerilogLoop.HumanCandidatesAsWritten`). The loop model uses the evidently intended reading, the edited text as the single candidate (`VerilogLoop.HumanCandidates`).

## Model

| member | source | states |
|---|---|---|
| `ConversationLog.Conversation.constructor` | autochip_scripts/conversation.py:6-8 | a new conversation holds no messages |
| `ConversationLog.Conversation.AddMessage` | autochip_scripts/conversation.py:14-16 | the message list becomes the old list with `{role, content}` appended: one longer, earlier messages untouched |
| `ConversationLog.Conversation.GetLastNMessages` | autochip_scripts/conversation.py:27-29 | the last `n` messages for `1 <= n <= len`; the whole list for `n > len` and for `n == 0` (Python's `-0` slice); for negative `n`, the list from index `-n` on |
| `ConversationLog.Conversation.RemoveMessage` | autochip_scripts/conversation.py:31-34 | for an index in range, exactly that message is gone and the rest keep their order; any other index changes nothing |
| `ConversationLog.Conversation.GetMessage` | autochip_scripts/conversation.py:36-38 | `Some(message i)` exactly when `i` is in range, `None` otherwise; reads only |
| `ConversationLog.Conversation.ClearMessages` | autochip_scripts/conversation.py:40-42 | the list is empty afterwards |
| `ConversationLog.ToStringLines` | autochip_scripts/conversation.py:46-48 | for messages without line breaks, splitting `__str__` at newlines gives back one `role: content` line per message, in order |
| `ConfigHandler.ValidateMixedModelConfig` | autochip_scripts/config_handler.py:24-62 | success exactly when every normalised start is in `[0, max]`, no two clash and one is 0; the result then keeps each name, family and id with the start normalised, and is a resolved schedule. `InvalidStart` names the first entry out of range, `ConflictingStart` the first that repeats an earlier start (after a clean prefix), and `NoStartAtZero` is raised exactly when the whole schedule is clean but has no 0 |
| `ConfigHandler.AdjustedIsResolved` | autochip_scripts/config_handler.py:41-62 | a normalised, clash-free schedule with a start at 0 has distinct in-range starts, exactly one of them 0 |
| `ConfigHandler.NormalizeExamples` | autochip_scripts/config_handler.py:32-39 | with max 10, -1 becomes 10 and -11 becomes 0, -12 is out of range, and non-negative starts stay as they are |
| `VerilogHandling.CleanGeneratedVerilog` | autochip_scripts/verilog_handling.py:13-19 | the cleaned text has no white space at either end and is never longer than the input |
| `VerilogHandling.CleanPlainText` | autochip_scripts/verilog_handling.py:13-19 | a text with no code fence, no `Here's `/`Here is ` preamble and no `\n\s*\n` match is only stripped |
| `VerilogHandling.SanitizeVerilogCode` | autochip_scripts/verilog_handling.py:21-35 | the indentation loop outputs `IndentedLines` of the prepared code, joined by newlines. `IndentedLines` is the recursive reading of the loop: a level that drops by one before a closing line, never below 0, and rises after an opening line |
| `VerilogHandling.IndentedLinesShape` | autochip_scripts/verilog_handling.py:26-35 | there are no more output lines than input lines; every output line is `4*k` spaces followed by a stripped, non-blank input line and ends in a non-space, so no output line is blank |
| `VerilogHandling.SanitizedStartsWithTimescale` | autochip_scripts/verilog_handling.py:23-35 | the output has a first line, and it starts with `` `timescale`` |
| `VerilogHandling.WrapFragmentRule` | autochip_scripts/verilog_handling.py:40-53 | the text is changed exactly when it is a bare fragment: no case-insensitive `module` followed by white space, and an `assign` or `always`. A bare fragment then starts with the fixed `top_module` header, follows it verbatim, and contains `endmodule` |
| `VerilogHandling.FindVerilogModules` | autochip_scripts/verilog_handling.py:37-63 | one block per raw match of the module patterns on the cleaned (and possibly wrapped) text |
| `VerilogHandling.FoundBlocks` | autochip_scripts/verilog_handling.py:63 | every block is stripped and is a piece of its match, and equals the match when that was stripped already |
| `VerilogHandling.AnalyzeCompilationErrors` | autochip_scripts/verilog_handling.py:84-107 | `None` or empty output gives the all-default record; any other output gives the record built from its lines, first to last |
| `VerilogHandling.MissingEndmoduleField` | autochip_scripts/verilog_handling.py:93-97 | `missing_endmodule` is set exactly when some line falls in that category |
| `VerilogHandling.UndefinedMacrosField` | autochip_scripts/verilog_handling.py:98-100 | a name is in `undefined_macros` exactly when some line is an undefined-macro line naming it |
| `VerilogHandling.MacroNameField` | autochip_scripts/verilog_handling.py:101-102 | `macro_name_errors` is set exactly when some line falls in that category |
| `VerilogHandling.SyntaxErrorsField` | autochip_scripts/verilog_handling.py:103-104 | `syntax_errors` is exactly the syntax-error lines in input order |
| `VerilogHandling.TimingField` | autochip_scripts/verilog_handling.py:105-106 | `timing_issues` is set exactly when some line falls in that category |
| `VerilogHandling.OneCategoryPerLine` | autochip_scripts/verilog_handling.py:95-106 | because of the `elif` chain, a single line sets at most one of the five fields |
| `VerilogHandling.SyntaxLinesAreSyntaxErrors` | autochip_scripts/verilog_handling.py:103-104 | every listed line contains `Syntax error` and is an input line, and the list is no longer than the input |
| `VerilogHandling.SortDescendingFacts` | autochip_scripts/verilog_handling.py:128 | the sort by `start_iteration`, descending, is ordered and a permutation of the entries |
| `VerilogHandling.SortedMembers` | autochip_scripts/verilog_handling.py:128 | the sorted list is ordered and holds exactly the schedule's entries |
| `VerilogHandling.FirstStartedIsLatest` | autochip_scripts/verilog_handling.py:130-134 | the first sorted entry that has started is an entry of the schedule with the greatest start not after the iteration |
| `VerilogHandling.FirstStarted` | autochip_scripts/verilog_handling.py:130-134 | the loop's pick over a list: an entry of the list that has started, and `None` exactly when no entry has started |
| `VerilogHandling.FirstLatestIsFirst` | autochip_scripts/verilog_handling.py:127-135 | the tie-breaking reference: `None` exactly when nothing has started; otherwise an entry that has started, whose start no started entry exceeds, with no earlier entry of the same start |
| `VerilogHandling.InsertFirstStarted` | autochip_scripts/verilog_handling.py:128-134 | inserting an entry into a descending list puts it first among the started entries exactly when it has started and its start is not below that of the list's first started entry, if there is one |
| `VerilogHandling.SortFirstStarted` | autochip_scripts/verilog_handling.py:128-134 | the first started entry of the stable descending sort is the first latest-started entry of the schedule in its own order |
| `VerilogHandling.GetIterationModel` | autochip_scripts/verilog_handling.py:127-135 | `None` exactly when no entry starts at or before the iteration (so also for an empty schedule); otherwise the family and id of an entry with the greatest such start, and on a tie the one that comes first in the schedule, since the descending sort is stable and the loop takes the first started entry |
| `VerilogHandling.LatestStartedUnique` | autochip_scripts/verilog_handling.py:127-135 | with pairwise distinct starts, that entry is unique, so the result is determined |
| `VerilogHandling.ValidatedScheduleCoversAll` | autochip_scripts/verilog_handling.py:127-135 | on a schedule the validator accepted, every iteration `>= 0` has a started entry, so the lookup never comes back empty |
| `VerilogHandling.LookupPut` | autochip_scripts/verilog_handling.py:154 | after `current_mismatches[signal] = ...` the signal maps to the new data and every other key keeps its value |
| `VerilogHandling.PutKeepsDistinct` | autochip_scripts/verilog_handling.py:154 | the table keeps one entry per signal |
| `VerilogHandling.LookupSomeIsKey` | autochip_scripts/verilog_handling.py:154 | a signal has an entry exactly when some key of the table is that signal |
| `VerilogHandling.FirstMatch` | autochip_scripts/verilog_handling.py:144 | the scan for the leftmost match of a pattern from a position on: `None` when it matches nowhere, otherwise the match at a position before which nothing matched |
| `VerilogHandling.FirstSummary` | autochip_scripts/verilog_handling.py:144 | `re.search`: the leftmost position where `Mismatches:\s*(\d+)\s*in\s*(\d+)` matches, or `None` when it matches nowhere |
| `VerilogHandling.SummaryCount` | autochip_scripts/verilog_handling.py:141-147 | the count is finite exactly when a summary matches somewhere, and is then the first number of the leftmost match; a missing summary never gives 0 |
| `VerilogHandling.RecordSignals` | autochip_scripts/verilog_handling.py:152-156 | after the signal loop, the feedback is the old feedback followed by one line per match with a positive count, and the table is the one built from all matches |
| `VerilogHandling.AnalyzeSimulationResults` | autochip_scripts/verilog_handling.py:137-158 | the count is the summary count alone; the feedback is the summary line (if any) followed by the signal lines; the table is built from the signal matches in order |
| `VerilogHandling.TableOfLastWins` | autochip_scripts/verilog_handling.py:152-154 | the table has one entry per signal, holding the data of that signal's last match |
| `VerilogHandling.SignalFeedbackShape` | autochip_scripts/verilog_handling.py:155-156 | there are as many signal lines as matches with a positive count, and each is the line of such a match |
| `LanguageModels.FormatPrompt` | autochip_scripts/languagemodels.py:120-130 | the `+=` loop builds `Prompt` of the messages: each message's text, first message first |
| `LanguageModels.PromptAppend` | autochip_scripts/languagemodels.py:123-129 | the prompt of two message lists in a row is the two prompts in a row |
| `LanguageModels.PromptSkipsOtherRoles` | autochip_scripts/languagemodels.py:124-129 | messages whose role is not `system`, `user` or `assistant` add nothing |
| `LanguageModels.UserMessageText` | autochip_scripts/languagemodels.py:126-127 | a user message becomes `<s>[INST] `, its stripped content, ` [/INST] ` |
| `LanguageModels.WithTimescaleFacts` | autochip_scripts/languagemodels.py:214-215 | the timescale step leaves a text containing `` `timescale`` that ends with its input |
| `LanguageModels.WithDefineFacts` | autochip_scripts/languagemodels.py:217-218 | the define step leaves a text containing `` `define RESET_VAL`` that ends with its input and keeps a timescale already present |
| `LanguageModels.LLMResponse.constructor` | autochip_scripts/languagemodels.py:187-197 | a fresh response keeps its iteration, number and text; rank -3, lengths and tokens 0, not compiled, empty parsed text, feedback and message |
| `LanguageModels.LLMResponse.SetParsedText` | autochip_scripts/languagemodels.py:199-201 | sets the parsed text, with the length in sync with it; nothing else changes: the full text, numbering, rank, `compiled`, message, tokens and feedback keep their values |
| `LanguageModels.LLMResponse.ParseVerilog` | autochip_scripts/languagemodels.py:203-221 | the parsed text becomes a function of the full text and the module scan alone, so a second call changes nothing; the length is in sync, and the text, numbering, rank, `compiled`, message, tokens and feedback are unchanged |
| `LanguageModels.WithHeadersFacts` | autochip_scripts/languagemodels.py:205-219 | the parsed text contains `` `timescale`` and `` `define RESET_VAL`` and ends with the body (the found modules joined by blank lines, or the full text). A body that already starts with the timescale and holds the define is left as it is |
| `LanguageModels.LLMResponse.CalculateRank` | autochip_scripts/languagemodels.py:232-246 | the rank is the outcome's rank and `compiled` holds exactly at rank 1; at ranks 0 and -1 the message becomes the outcome's message, at rank 1 it is kept; full and parsed text are kept |
| `LanguageModels.RankCases` | autochip_scripts/languagemodels.py:232-246 | the rank is 1, 0 or -1, all above -3. It is 1 exactly for return code 0 with empty stderr; 0 with stderr or `Compilation failed` as the message; -1 exactly for an exception, with its text |
| `VerilogLoop.ParsedResponses` | autochip_scripts/verilog_handling.py:122-124 | one fresh, distinct response per text, in order, numbered from 0 in iteration 0, parsed, with rank -3 and no message |
| `VerilogLoop.GenerateVerilogResponses` | autochip_scripts/verilog_handling.py:109-125 | `Err(InvalidModelType)` exactly for a family the dispatcher does not know; otherwise the parsed responses of the family's texts. The human family gives one response holding the edited text |
| `VerilogLoop.HumanEditIsSplit` | autochip_scripts/languagemodels.py:136-144 | as written, an edit of two or more characters becomes as many one-character candidates, and the edit itself is not among them |
| `VerilogLoop.HumanEditExample` | autochip_scripts/languagemodels.py:136-144 | as written, the edit `ab` gives the candidates `a` and `b` |
| `VerilogLoop.FeedBackBest` | autochip_scripts/verilog_handling.py:181-198 | with non-empty best code and a finite best count, one user message is appended (the count, then the early- and late-failing signals); otherwise the conversation is unchanged |
| `VerilogLoop.EarlyFailuresMembers` | autochip_scripts/verilog_handling.py:188-189 | a signal is listed as failing early exactly when its first mismatch is before time 100 and its count is positive |
| `VerilogLoop.LateFailuresMembers` | autochip_scripts/verilog_handling.py:193-194 | a signal is listed as failing late exactly when its first mismatch is at time 100 or later and its count is positive |
| `VerilogLoop.FailuresPartition` | autochip_scripts/verilog_handling.py:188-196 | every failing signal of the best attempt is in exactly one of the two lists |
| `VerilogLoop.ImprovementMessage` | autochip_scripts/verilog_handling.py:224-234 | the loop's message is `ImprovementLines`: the header naming both counts, then the lines of the signals whose count dropped, in table order |
| `VerilogLoop.ImprovedSignalListed` | autochip_scripts/verilog_handling.py:229-234 | every signal whose count dropped below its best-attempt count (infinite when absent) has its line |
| `VerilogLoop.ListedSignalImproved` | autochip_scripts/verilog_handling.py:229-234 | every listed line belongs to a signal whose count dropped |
| `VerilogLoop.FirstImprovementListsAll` | autochip_scripts/verilog_handling.py:230 | against the empty table of the first improvement, every signal is listed |
| `VerilogLoop.OutputFeedback` | autochip_scripts/verilog_handling.py:219-236 | the feedback of a non-empty output is the analysis lines, followed by the improvement message when the count beats the best |
| `VerilogLoop.AnalysisCount` | autochip_scripts/verilog_handling.py:220-223 | the analysed count is the summary count, and it improves exactly when it is below the best |
| `VerilogLoop.FreshRankCases` | autochip_scripts/verilog_handling.py:215-253 | a fresh candidate ends with rank 1 exactly when the output contains `0 Errors`, stdout is non-empty and the count is below the best and not 0. It ends with -1 exactly on a compile failure or a non-improving count. It keeps -3 on empty stdout or on the returning zero |
| `VerilogLoop.CompileFailureMessage` | autochip_scripts/verilog_handling.py:251-253 | after a failed compile the message is the compiler output, or the fixed text when that is empty; never empty |
| `VerilogLoop.BestRule` | autochip_scripts/verilog_handling.py:216-239 | the best count never rises. It drops exactly for a compiled candidate with output whose count is below it, and then count, table and code all come from that candidate; otherwise the best is unchanged |
| `VerilogLoop.StepNeverWorsens` | autochip_scripts/verilog_handling.py:205-243 | one candidate never makes the best worse, keeps code and count consistent, and reaching 0 makes the loop return |
| `VerilogLoop.RankAnalyzed` | autochip_scripts/verilog_handling.py:222-250 | rank, message, best and `global_max_response` change as the reference assessment of the output says; on the zero count the loop returns before touching rank and message |
| `VerilogLoop.EvaluateCandidate` | autochip_scripts/verilog_handling.py:205-253 | one pass of the candidate loop does what the reference assessment of its compile and simulate results says, for the best so far; the parsed text is untouched |
| `VerilogLoop.RoundJudgeNeverWorsens` | autochip_scripts/verilog_handling.py:205-253 | with any tools, no assessment makes the best worse |
| `VerilogLoop.TrailIsOutcomes` | autochip_scripts/verilog_handling.py:205-253 | the assessments the loop records are those of the recursive reading of the round, each candidate against the best the earlier ones left |
| `VerilogLoop.BestNeverWorsens` | autochip_scripts/verilog_handling.py:205-253 | within a round, the best after a later candidate is the same as or below the best after an earlier one |
| `VerilogLoop.TrailNeverWorsens` | autochip_scripts/verilog_handling.py:205-253 | the best at the end of the recorded candidates is the same as or below the best the round started with |
| `VerilogLoop.SweepStep` | autochip_scripts/verilog_handling.py:205-253 | one turn extends the round's record by the candidate's assessment and changes only that candidate's rank and message |
| `VerilogLoop.SweepCandidates` | autochip_scripts/verilog_handling.py:205-264 | the candidate loop assesses a prefix of the candidates in order. It stops at the first zero count, raises only on the first candidate when no table exists yet, and leaves the unassessed ones as they were. The new `global_max_response` is the old one or a rank-1 candidate |
| `VerilogLoop.SweepFresh` | autochip_scripts/verilog_handling.py:205-264 | over fresh candidates: the assessed candidates are a prefix, and their assessments are the round's trail, each candidate against the best the earlier ones left, with the compile and simulate results of its round and index; each assessed candidate carries the rank and message its assessment gives, and the rest keep -3 and no message. The loop returns exactly when the best count reaches 0, raises only at the first candidate without a table, and otherwise leaves a valid best; `global_max_response` is the old one or a rank-1 candidate |
| `VerilogLoop.SweepRound` | autochip_scripts/verilog_handling.py:205-267 | the sweep and how the round ends: a continued round assessed all its candidates, at least one, and none stopped; it stops exactly at best count 0, ending on a stopping assessment; it raises the unbound-variable error only at the first candidate of a round without a signal table, and the `max` error exactly for no candidates; the trail is that of `SweepFresh` |
| `VerilogLoop.MaxRankIndex` | autochip_scripts/verilog_handling.py:267 | `max` by `(rank, -parsed_length)`: nothing outranks the winner, and it outranks everything before it, so ties go to the shorter text and then to the first in the list |
| `VerilogLoop.PickWinner` | autochip_scripts/verilog_handling.py:267 | the chosen response is the `max` winner of the list |
| `VerilogLoop.PrunedShape` | autochip_scripts/verilog_handling.py:269-272 | appending the answer and removing index 2 twice keeps the two seed messages and drops the two oldest after them; with three messages or fewer that takes the new answer along. The winner's message is the last, a user turn |
| `VerilogLoop.AnswerAndPrune` | autochip_scripts/verilog_handling.py:269-272 | the conversation becomes the pruned list: the seeds stay, and the length becomes 3 or stays the same |
| `VerilogLoop.ConversationGrows` | autochip_scripts/verilog_handling.py:198-272 | with the best-so-far message added at the head of a round, pruning leaves the conversation one message longer than before the round, seeds in place |
| `VerilogLoop.AnswerRound` | autochip_scripts/verilog_handling.py:205-272 | after the candidates: the trail and the candidates' ranks and messages are those of the sweep; the round stops exactly at best count 0, on a stopping assessment; the unbound-variable error only at the first candidate while no signal table exists; the `max` error exactly for no candidates; otherwise every candidate was assessed and none stopped, and the conversation becomes the pruned one for the `max` winner, leaving a signal table and a valid, non-zero best. An ended round leaves the conversation as it was |
| `VerilogLoop.AnswerWinner` | autochip_scripts/verilog_handling.py:266-272 | the answer is the `max` winner's parsed text and the next user turn its message, in the pruned conversation; the seeds stay and the length becomes 3 or stays the same |
| `VerilogLoop.RunRound` | autochip_scripts/verilog_handling.py:203-272 | a round aborts with `InvalidModelType` exactly when its family and id yield no candidate texts, and then records no assessment. Otherwise its candidates are fresh records of those texts, its trail is `SweepFresh`'s over their parsed texts, and it ends and answers as `AnswerRound` says |
| `VerilogLoop.ChooseModel` | autochip_scripts/verilog_handling.py:200-201 | the model of round `iteration`: the configured one without a schedule; with one, the family and id of a latest-started entry, the first such entry in schedule order on a tie (`FirstLatest`), and no family exactly when no entry has started, which the dispatcher then rejects |
| `VerilogLoop.LoopIteration` | autochip_scripts/verilog_handling.py:181-272 | one turn of the `while` loop: the round is asked with the conversation plus the best-so-far message when a best exists, and with the model the schedule names for it; the trace records that conversation, model, parsed texts, trail and winner; a round that stops or raises leaves that conversation as it was asked, and a continued one leaves it answered with the winner's parsed text and pruned, with the winner's assessment message as the next user turn (`RoundLeft`); the new best is the trail's last; the turn stops exactly at count 0 on a stopping assessment, the unbound-variable error only in round 0, and a continued turn leaves a valid best and a table; the conversation grows by at most one message, by exactly one when a continued round had a best to feed back and at least three messages, seeds in place |
| `VerilogLoop.TracedRound` | autochip_scripts/verilog_handling.py:203-272 | a round seen through its trace: the trace holds the conversation asked with, the model, the parsed texts of the candidates and the trail of their assessments, and `RoundLeft` states the conversation it leaves, with the winner `max` picks named over those texts and assessments (`TextWinner`) |
| `VerilogLoop.JudgedWinner` | autochip_scripts/verilog_handling.py:267-272 | the response `max` picks among judged candidates is the `TextWinner` of their parsed texts and assessments, and carries that parsed text and the message its assessment gives |
| `VerilogLoop.RunVerilogLoop` | autochip_scripts/verilog_handling.py:159-277 | the two seed messages stay first. There are at most `max_iterations + 1` rounds (at least one). The last round is recorded: asked with the model the schedule names for it, with its trail over the candidates' parsed texts, ending in the final best. A zero count always returns, on a stopping assessment of the last round; a return before the last possible round comes from such an assessment; a return without a zero count comes after all rounds. The returned response has rank 1 or is the sentinel, the unbound-variable error comes from round 0, and the conversation holds at most two messages more than rounds |
| `GenerateVerilog.CleanCommentsAndText` | autochip_scripts/generate_verilog.py:26-34 | the loop's result is `CleanedText`: the stripped lines that are non-empty and mention none of the eight markers (lower-cased), in order, joined by newlines |
| `GenerateVerilog.CodeLinesShape` | autochip_scripts/generate_verilog.py:28-33 | every kept line is non-empty, stripped, newline-free and free of the markers |
| `GenerateVerilog.CleanedTextLines` | autochip_scripts/generate_verilog.py:26-34 | every line of a non-empty cleaned text is a kept line, stripped |
| `GenerateVerilog.CleanedTextIdempotent` | autochip_scripts/generate_verilog.py:26-34 | cleaning twice equals cleaning once |
| `GenerateVerilog.ImplementationLines` | autochip_scripts/generate_verilog.py:36-41 | every line of a non-empty implementation is non-blank and stripped |
| `GenerateVerilog.ImplementationWithoutModule` | autochip_scripts/generate_verilog.py:38-40 | a text without `module` loses neither a header nor a tail: it becomes its stripped non-blank lines |
| `GenerateVerilog.ExtractVerilogCodeCases` | autochip_scripts/generate_verilog.py:43-61 | with a non-empty interface and implementation, the result is the fixed template (timescale, `RESET_VAL`, `module top_module(<interface>);`), then the implementation, then `\nendmodule`; otherwise it is the cleaned answer, which cleaning leaves as it is |
| `GenerateVerilog.EnsureVerilogBasics` | autochip_scripts/generate_verilog.py:63-79 | the directive and body loop builds `VerilogBasics` of the code |
| `GenerateVerilog.DirectivesFromMembers` | autochip_scripts/generate_verilog.py:68-72 | a line is among the directives exactly when some stripped input line equals it and starts with a backquote |
| `GenerateVerilog.DirectivesFromShape` | autochip_scripts/generate_verilog.py:68-72 | the directives are distinct, stripped, newline-free directive lines, and the list only grows |
| `GenerateVerilog.DirectivesFirstOccurrence` | autochip_scripts/generate_verilog.py:68-72 | the directives seen in a prefix of the lines are a prefix of the final list, so the order is that of first occurrence |
| `GenerateVerilog.ModuleCodeShape` | autochip_scripts/generate_verilog.py:73-74 | the body lines are stripped, newline-free and not directives |
| `GenerateVerilog.VerilogBasicsLayout` | autochip_scripts/generate_verilog.py:76-79 | the output lines are the directives, then a blank line, then the non-blank body lines in their order, so every directive comes before every body line |
| `GenerateVerilog.AssembleIsRStripped` | autochip_scripts/generate_verilog.py:78 | the final `rstrip` pass changes nothing |
| `GenerateVerilog.LayoutDirectives` | autochip_scripts/generate_verilog.py:68-72 | reading the laid-out output again finds exactly the same directive list |
| `GenerateVerilog.LayoutBody` | autochip_scripts/generate_verilog.py:73-77 | reading the laid-out output again finds exactly the same non-blank body |
| `GenerateVerilog.VerilogBasicsIdempotent` | autochip_scripts/generate_verilog.py:63-79 | running it on its own output gives the same string |
| `GenerateVerilog.HandleSimulationOutput` | autochip_scripts/generate_verilog.py:81-111 | the loop over the output lines returns `SimulationVerdict` of stdout; the return code and stderr only go to the log |
| `GenerateVerilog.LastMismatchFacts` | autochip_scripts/generate_verilog.py:89-94 | the count is infinite exactly when no marked line reports one; otherwise it is that of the last line that does |
| `GenerateVerilog.ReportsZeroFacts` | autochip_scripts/generate_verilog.py:95-96 | success is flagged exactly when some marked line reports 0 |
| `GenerateVerilog.SimulationVerdictFacts` | autochip_scripts/generate_verilog.py:81-111 | `(False, inf)` for empty stdout; `(True, 0)` exactly when a marked line reports `Mismatches: 0 ... in`; otherwise `(False, last count)`, which is infinite exactly when nothing was reported |
| `GenerateVerilog.ErrorAnalysis` | autochip_scripts/generate_verilog.py:228-234 | each of the three hints is present exactly when its phrase occurs in the compiler output, and they appear in the fixed order |
| `GenerateVerilog.ErrorFeedbackQuotes` | autochip_scripts/generate_verilog.py:236-244 | the message opens with the analysis, quotes the compiler output, and quotes the best code exactly when there is some (`No working solution yet` otherwise) |
| `GenerateVerilog.MainCount` | autochip_scripts/generate_verilog.py:209-213 | the count `main` uses is the handler's count or 0, and it is 0 whenever the handler reports success |
| `GenerateVerilog.SimulateDesign` | autochip_scripts/generate_verilog.py:207-224 | the new best is the count `main` settles on for the simulation when that is lower, otherwise the old best; a simulate call that raised changes nothing; the best code moves with the count, to the submitted design; the loop breaks exactly at count 0 |
| `GenerateVerilog.ChooseDesign` | autochip_scripts/generate_verilog.py:183-196 | a best with code and a finite count is resubmitted; otherwise the model's answer is extracted and normalised, and a call that raised gives no design |
| `GenerateVerilog.MainIteration` | autochip_scripts/generate_verilog.py:182-250 | one iteration submits `DesignFor` of the conversation (the reusable best, or the first candidate cleaned and normalised, none when generation raised), and its new best, best code and conversation are those `PassAfter` gives for that design and the tools; so the best never rises, best code and count change together, it breaks exactly at 0, and the conversation is unchanged or gains the fix request and one analysis message |
| `GenerateVerilog.SubmitDesign` | autochip_scripts/generate_verilog.py:204-246 | compiling and then simulating or asking for a fix does what `PassAfter` says for the design; it breaks exactly at count 0 |
| `GenerateVerilog.PassNeverWorsens` | autochip_scripts/generate_verilog.py:205-224 | after any pass the best count is the old one or lower; the best code changes only with it, and then to the design submitted |
| `GenerateVerilog.PassImprovesBySimulation` | autochip_scripts/generate_verilog.py:205-218 | a pass lowers the best only through a non-empty compiler output that says `SUCCESS` followed by a simulation whose settled count is the new best |
| `GenerateVerilog.PassAddsFixPair` | autochip_scripts/generate_verilog.py:226-246 | a pass adds messages exactly when the compiler output is non-empty and does not say `SUCCESS`; it adds two, the fix request and a user message that opens with the analysis and quotes the output, and keeps the best |
| `GenerateVerilog.FixPairsStep` | autochip_scripts/generate_verilog.py:245-246 | after every iteration the conversation is the two seeds followed by fix-request and analysis pairs |
| `GenerateVerilog.AttemptAtOk` | autochip_scripts/generate_verilog.py:182-250 | a pass made as the tools say keeps what every pass guarantees: the best never rises, the code follows the count, and a reusable best is resubmitted |
| `GenerateVerilog.RunStep` | autochip_scripts/generate_verilog.py:178-250 | appending the next pass, made as the tools say, keeps the run's state: code exactly with a finite count, the passes chained and following the tools from the seeds, and the conversation the seeds followed by fix pairs |
| `GenerateVerilog.MainRun` | autochip_scripts/generate_verilog.py:166-250 | success exactly when the best count is 0, after the first zero iteration; without success all iterations ran. Pass `k` submitted `DesignFor` of the conversation the pass before left, and its best and conversation are what `PassAfter` says with the tools for that design, from the two seeds on; the passes chain their bests, there is best code exactly when the count is finite, and no pass before the last reached 0. The conversation is the two seeds followed by fix-request and analysis pairs |
| `GenerateVerilog.BestFromSimulation` | autochip_scripts/generate_verilog.py:205-218 | a finite best after pass `j` comes with code, and some pass up to `j` simulated exactly that code to exactly that count |
| `GenerateVerilog.ReuseIsPermanent` | autochip_scripts/generate_verilog.py:183-185 | once an iteration resubmits the best design, every later one does too, so the model is never asked again |

## Left out

- The model services are not modelled. The `generate` methods of `ChatGPT`, `Claude`, `Gemini`, `CodeLlama` and `RTLCoder` are network or GPU calls, and `HumanInput` opens an editor. They are the `complete` and `edit` functions of `LoopTools`, and `generate` of `MainTools`.
- `rivierapro_backend.py` is not part of this model; it is shell processes with a timeout. Compiler and simulator results are the `compile` and `simulate` functions of `LoopTools` and `MainTools`. `None` in `MainTools` stands for a call that raised, which `main` skips with `continue`.
- The two module-finding regular expressions (`verilog_handling.py:56`, `:60`) are not modelled. They are the `ModuleScan` parameter, so `FindVerilogModules` is stated only up to their raw matches.
- All file and console output is left out:
  - the log-file mirror of `Conversation`;
  - `write_code_blocks_to_file`;
  - the per-candidate `log.txt`, except its read of `current_mismatches`, which can raise;
  - `format_message`, which only feeds that log;
  - `log_output`, `print`, `shutil.rmtree`, `os.makedirs` and wall-clock timing.
- `extract_interface_from_prompt` reads a file; the interface is a parameter of `MainRun`.
- `load_config`, `parse_args_and_config` and `get_prompt_from_editor` are left out: JSON, `getopt`, `sys.exit` and the editor.
- `calculate_rank`'s write of `response.v` is left out, and the outcome of its missing callee is a parameter (see above).
- The `tokens` and `feedback` fields of `LLMResponse` are only initialised; no core code reads them.
- White space, digits, word characters and `lower()` are ASCII only; Python's Unicode character classes are not modelled.
- `CleanGeneratedVerilog`: its contract states only that the result is stripped and no longer than the input. The substitutions themselves are its body, and `CleanPlainText` states its behaviour on text without fences, preambles or blank-line runs.
- `VerilogHandling.FindVerilogModules`: its contract states the block count and, through `FoundBlocks`, the stripping of each match. What the patterns match is left to `ModuleScan`.
- `VerilogLoop.RunVerilogLoop`: its contract does not say which rank-1 response is returned, only that it has rank 1 or is the sentinel. It records the last round only (`last`); what earlier rounds did is not in its contract beyond the bounds on the round count and the conversation length. `LoopIteration` states, per round, the conversation the round is asked with and the one it leaves, the model, the trail and the winner.
- `GenerateVerilog.MainCount`: its contract does not name the two zero phrases of `generate_verilog.py:211`; it states only that the count is the handler's or 0.
- `GenerateVerilog.MainRun`: `num_candidates` and the choice of `responses[0]` are folded into `MainTools.generate`, which returns the first candidate's parsed text.

## Findings

| source | as written | input that shows it | evidently intended | confidence | as-written member | corrected member |
|---|---|---|---|---|---|---|
| autochip_scripts/languagemodels.py:136-144 with autochip_scripts/verilog_handling.py:121-122 | `HumanInput.generate` returns the edited text as one `str`, and `generate_verilog_responses` enumerates it, so every character becomes a candidate of its own | the edit `ab` gives the two candidates `a` and `b` | the edited text is the one candidate of the human family | high, not executed | `VerilogLoop.HumanCandidatesAsWritten` (`HumanEditIsSplit`, `HumanEditExample`) | `VerilogLoop.HumanCandidates`, used by `VerilogLoop.GenerateVerilogResponses` |
