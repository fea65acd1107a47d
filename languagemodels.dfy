/** The parts of `autochip_scripts/languagemodels.py` that do not talk to a model
    service: the prompt serialiser of the locally run models, and the `LLMResponse`
    record that carries one candidate through parsing and ranking. */
module LanguageModels {
  import opened Common
  import opened TextUtil
  import opened ConversationLog
  import opened VerilogHandling

  // ---------------------------------------------------------------------------
  // CodeLlama._format_prompt / RTLCoder._format_prompt
  // ---------------------------------------------------------------------------

  /** What one message contributes to the prompt; a role other than `system`,
      `user` or `assistant` contributes nothing. */
  function MessageText(m: Message): string {
    if m.role == "system" then "<<SYS>>\n" + m.content + "\n<</SYS>>\n\n"
    else if m.role == "user" then "<s>[INST] " + Strip(m.content) + " [/INST] "
    else if m.role == "assistant" then m.content
    else ""
  }

  /** The prompt built from `ms`, first message first. */
  function Prompt(ms: seq<Message>): string {
    if |ms| == 0 then "" else Prompt(ms[..|ms| - 1]) + MessageText(ms[|ms| - 1])
  }

  /** `_format_prompt`: accumulates the messages' texts with `+=`. */
  method FormatPrompt(conversation: Conversation) returns (prompt: string)
    ensures prompt == Prompt(conversation.messages)
  {
    var messages := conversation.GetMessages();
    prompt := "";
    var i := 0;
    while i < |messages|
      invariant 0 <= i <= |messages|
      invariant prompt == Prompt(messages[..i])
    {
      var message := messages[i];
      ghost var prompt0 := prompt;
      ghost var text := MessageText(message);
      if message.role == "system" {
        prompt := prompt + "<<SYS>>\n" + message.content + "\n<</SYS>>\n\n";
        assert text == "<<SYS>>\n" + message.content + "\n<</SYS>>\n\n";
        assert prompt == prompt0 + text;
      } else if message.role == "user" {
        prompt := prompt + "<s>[INST] " + Strip(message.content) + " [/INST] ";
        assert text == "<s>[INST] " + Strip(message.content) + " [/INST] ";
        assert prompt == prompt0 + text;
      } else if message.role == "assistant" {
        prompt := prompt + message.content;
      } else {
        assert prompt == prompt0 + text;
      }
      PromptStep(messages, i);
      assert prompt == Prompt(messages[..i + 1]);
      i := i + 1;
    }
    assert messages[..i] == messages;
  }

  lemma PromptStep(ms: seq<Message>, i: nat)
    requires i < |ms|
    ensures Prompt(ms[..i + 1]) == Prompt(ms[..i]) + MessageText(ms[i])
  {
    assert ms[..i + 1][..i] == ms[..i];
  }

  /** The prompt of a concatenation is the concatenation of the prompts: each
      message is serialised on its own, in order. */
  lemma {:induction false} PromptAppend(a: seq<Message>, b: seq<Message>)
    ensures Prompt(a + b) == Prompt(a) + Prompt(b)
    decreases |b|
  {
    if |b| > 0 {
      var b' := b[..|b| - 1];
      assert (a + b)[..|a + b| - 1] == a + b';
      PromptAppend(a, b');
    } else {
      assert a + b == a;
    }
  }

  /** Messages with other roles leave no trace in the prompt. */
  lemma {:induction false} PromptSkipsOtherRoles(ms: seq<Message>)
    requires forall k :: 0 <= k < |ms| ==> ms[k].role !in ["system", "user", "assistant"]
    ensures Prompt(ms) == ""
    decreases |ms|
  {
    if |ms| > 0 {
      PromptSkipsOtherRoles(ms[..|ms| - 1]);
      assert ms[|ms| - 1].role !in ["system", "user", "assistant"];
    }
  }

  /** A user message is wrapped in instruction markers with its content stripped. */
  lemma UserMessageText(content: string)
    ensures var t := MessageText(Message("user", content));
      StartsWith(t, "<s>[INST] ") && EndsWith(t, " [/INST] ") &&
      t[10..|t| - 9] == Strip(content) && IsStripped(t[10..|t| - 9])
  {
    var open, close, c := "<s>[INST] ", " [/INST] ", Strip(content);
    var t := MessageText(Message("user", content));
    assert t == open + c + close;
    assert t[..10] == open;
    assert t[|t| - 9..] == close;
    assert t[10..|t| - 9] == c;
    StripFacts(content);
  }

  // ---------------------------------------------------------------------------
  // LLMResponse
  // ---------------------------------------------------------------------------

  const TimescaleHeader := "`timescale 1ns / 1ps\n\n"
  const ResetValHeader := "`define RESET_VAL 4'b0000\n\n"

  /** The text `parse_verilog` starts from: the found modules joined by blank lines,
      or the whole response when none is found. */
  function ParsedBody(fullText: string, scan: ModuleScan): string {
    var moduleList := FindVerilogModules(fullText, scan);
    if |moduleList| > 0 then Join("\n\n", moduleList) else fullText
  }

  /** The first header addition of `parse_verilog`: the timescale line unless the
      text already starts with one. */
  function WithTimescale(body: string): string {
    if StartsWith(Strip(body), "`timescale") then body else TimescaleHeader + body
  }

  /** The second: the `RESET_VAL` define unless it occurs. */
  function WithDefine(t: string): string {
    if Contains(t, "`define RESET_VAL") then t else ResetValHeader + t
  }

  function WithHeaders(body: string): string {
    WithDefine(WithTimescale(body))
  }

  function ParsedTextOf(fullText: string, scan: ModuleScan): string {
    WithHeaders(ParsedBody(fullText, scan))
  }

  lemma WithTimescaleFacts(body: string)
    ensures Contains(WithTimescale(body), "`timescale") && EndsWith(WithTimescale(body), body)
  {
    var ts := "`timescale";
    var t := WithTimescale(body);
    if StartsWith(Strip(body), ts) {
      StripFacts(body);
      var i := |body| - |LStrip(body)|;
      assert body[i..i + |ts|] == ts;
      assert OccursAt(body, ts, i);
      ContainsOccurs(body, ts);
    } else {
      assert StartsWith(t, ts);
      ContainsPrefix(t, ts);
    }
    assert t[|t| - |body|..] == body;
  }

  lemma WithDefineFacts(t: string)
    ensures Contains(WithDefine(t), "`define RESET_VAL") && EndsWith(WithDefine(t), t)
    ensures Contains(t, "`timescale") ==> Contains(WithDefine(t), "`timescale")
  {
    var w := WithDefine(t);
    if !Contains(t, "`define RESET_VAL") {
      assert StartsWith(w, "`define RESET_VAL");
      ContainsPrefix(w, "`define RESET_VAL");
      if Contains(t, "`timescale") {
        ContainsAppend(ResetValHeader, t, "", "`timescale");
        assert ResetValHeader + t + "" == w;
      }
      assert w[|w| - |t|..] == t;
    }
  }

  lemma EndsWithTrans(a: string, b: string, c: string)
    requires EndsWith(a, b) && EndsWith(b, c)
    ensures EndsWith(a, c)
  {
    assert a[|a| - |c|..] == b[|b| - |c|..];
  }

  /** The parsed text holds both directives and ends with the body; a body that
      already starts with a timescale line and holds the define is kept as it is. */
  lemma WithHeadersFacts(body: string)
    ensures Contains(WithHeaders(body), "`timescale")
    ensures Contains(WithHeaders(body), "`define RESET_VAL")
    ensures EndsWith(WithHeaders(body), body)
    ensures StartsWith(Strip(body), "`timescale") && Contains(body, "`define RESET_VAL") ==>
              WithHeaders(body) == body
  {
    var t := WithTimescale(body);
    WithTimescaleFacts(body);
    WithDefineFacts(t);
    EndsWithTrans(WithDefine(t), t, body);
  }

  /** Outcome of the compile-and-simulate call in `calculate_rank`: its three results,
      or the text of the exception it raised. */
  datatype ToolRun =
    | Completed(returnCode: int, stderr: string, stdout: string)
    | Failed(error: string)

  class LLMResponse {
    var iteration: int
    var responseNum: int
    var fullText: string
    var tokens: int
    var parsedText: string
    var parsedLength: int
    var feedback: string
    var compiled: bool
    var rank: int
    var message: string

    /** A fresh response: not parsed, not compiled, rank -3. */
    constructor (iteration: int, responseNum: int, fullText: string)
      ensures this.iteration == iteration && this.responseNum == responseNum && this.fullText == fullText
      ensures tokens == 0 && parsedText == "" && parsedLength == 0 && feedback == ""
      ensures !compiled && rank == -3 && message == ""
    {
      this.iteration := iteration;
      this.responseNum := responseNum;
      this.fullText := fullText;
      tokens := 0;
      parsedText := "";
      parsedLength := 0;
      feedback := "";
      compiled := false;
      rank := -3;
      message := "";
    }

    /** The length field agrees with the parsed text. */
    predicate LengthInSync()
      reads this
    {
      parsedLength == |parsedText|
    }

    method SetParsedText(parsedText: string)
      modifies this
      ensures this.parsedText == parsedText && LengthInSync()
      ensures iteration == old(iteration) && responseNum == old(responseNum) && fullText == old(fullText)
      ensures rank == old(rank) && compiled == old(compiled) && message == old(message)
      ensures tokens == old(tokens) && feedback == old(feedback)
    {
      this.parsedText := parsedText;
      parsedLength := |parsedText|;
    }

    /** `parse_verilog`: derives the parsed text from the full text alone, so a second
      call leaves the same state. */
    method ParseVerilog(scan: ModuleScan)
      modifies this
      ensures parsedText == ParsedTextOf(fullText, scan) && LengthInSync()
      ensures iteration == old(iteration) && responseNum == old(responseNum) && fullText == old(fullText)
      ensures rank == old(rank) && compiled == old(compiled) && message == old(message)
      ensures tokens == old(tokens) && feedback == old(feedback)
    {
      var moduleList := FindVerilogModules(fullText, scan);
      if |moduleList| > 0 {
        parsedText := Join("\n\n", moduleList);
      } else {
        parsedText := fullText;
      }
      ghost var body := parsedText;
      assert body == ParsedBody(fullText, scan);
      if !StartsWith(Strip(parsedText), "`timescale") {
        parsedText := "`timescale 1ns / 1ps\n\n" + parsedText;
      }
      ghost var timed := parsedText;
      assert timed == WithTimescale(body);
      if !Contains(parsedText, "`define RESET_VAL") {
        parsedText := "`define RESET_VAL 4'b0000\n\n" + parsedText;
      }
      assert parsedText == WithDefine(timed);
      parsedLength := |parsedText|;
    }

    /** The rank part of `calculate_rank` (writing the file is not modelled). */
    method CalculateRank(outcome: ToolRun)
      modifies this
      ensures rank == RankOf(outcome) && compiled == (rank == 1)
      ensures message == if rank == 1 then old(message) else RankMessage(outcome)
      ensures parsedText == old(parsedText) && parsedLength == old(parsedLength) && fullText == old(fullText)
      ensures iteration == old(iteration) && responseNum == old(responseNum)
      ensures tokens == old(tokens) && feedback == old(feedback)
    {
      match outcome
      case Completed(returnCode, stderr, stdout) =>
        if returnCode == 0 && stderr == "" {
          rank := 1;
          compiled := true;
        } else {
          rank := 0;
          compiled := false;
          message := if stderr != "" then stderr else "Compilation failed";
        }
      case Failed(e) =>
        rank := -1;
        compiled := false;
        message := e;
    }
  }

  function RankOf(outcome: ToolRun): int {
    match outcome
    case Completed(rc, err, _) => if rc == 0 && err == "" then 1 else 0
    case Failed(_) => -1
  }

  function RankMessage(outcome: ToolRun): string {
    match outcome
    case Completed(_, err, _) => if err != "" then err else "Compilation failed"
    case Failed(e) => e
  }

  /** The three rank cases, all above the -3 of a fresh response: 1 exactly for a
      clean completed run, 0 with a non-empty message for any other completed run,
      -1 with the exception text. */
  lemma RankCases(outcome: ToolRun)
    ensures RankOf(outcome) in {1, 0, -1} && RankOf(outcome) > -3
    ensures RankOf(outcome) == 1 <==> outcome.Completed? && outcome.returnCode == 0 && outcome.stderr == ""
    ensures RankOf(outcome) == 0 ==>
              RankMessage(outcome) != "" &&
              (RankMessage(outcome) == outcome.stderr || RankMessage(outcome) == "Compilation failed")
    ensures RankOf(outcome) == -1 <==> outcome.Failed?
    ensures outcome.Failed? ==> RankMessage(outcome) == outcome.error
  {
  }
}
