/** The text handling and best-tracking loop of `autochip_scripts/generate_verilog.py`:
    filtering chatter out of a model answer, cutting out a module body, hoisting
    compiler directives, reading the simulator's mismatch count, and the `main`
    loop that keeps the best design found so far. */
module GenerateVerilog {
  import opened Common
  import opened TextUtil
  import opened ConversationLog
  import opened VerilogHandling

  // ---------------------------------------------------------------------------
  // clean_comments_and_text
  // ---------------------------------------------------------------------------

  /** The phrases that mark a line as chatter rather than code (matched lower-cased). */
  const NoiseMarkers: seq<string> :=
    ["i apologize", "here is", "this code", "explanation:", "note:", "sorry", "implementation", "begin by"]

  /** `any(x in s for x in markers)`. */
  predicate MentionsAny(s: string, markers: seq<string>)
    decreases |markers|
  {
    |markers| > 0 && (Contains(s, markers[0]) || MentionsAny(s, markers[1..]))
  }

  /** A stripped line the cleaner keeps: not empty and free of every marker. */
  predicate IsCodeLine(line: string) {
    line != "" && !MentionsAny(Lower(line), NoiseMarkers)
  }

  /** The stripped lines the cleaner keeps, in order. */
  function CodeLines(lines: seq<string>): seq<string> {
    if |lines| == 0 then []
    else
      var line := Strip(lines[|lines| - 1]);
      CodeLines(lines[..|lines| - 1]) + (if IsCodeLine(line) then [line] else [])
  }

  function CleanedText(text: string): string {
    Join("\n", CodeLines(Split(text)))
  }

  lemma CodeLinesStep(lines: seq<string>, i: nat)
    requires i < |lines|
    ensures CodeLines(lines[..i + 1]) ==
              CodeLines(lines[..i]) + (if IsCodeLine(Strip(lines[i])) then [Strip(lines[i])] else [])
  {
    assert lines[..i + 1][..i] == lines[..i];
  }

  /** `clean_comments_and_text`: strips every line and keeps the non-empty ones that
      mention no marker. */
  method CleanCommentsAndText(text: string) returns (r: string)
    ensures r == CleanedText(text)
  {
    var input := Split(text);
    var lines: seq<string> := [];
    var i := 0;
    while i < |input|
      invariant 0 <= i <= |input|
      invariant lines == CodeLines(input[..i])
    {
      CodeLinesStep(input, i);
      var line := Strip(input[i]);
      if line != "" && !MentionsAny(Lower(line), NoiseMarkers) {
        lines := lines + [line];
      }
      i := i + 1;
    }
    assert input[..i] == input;
    r := Join("\n", lines);
  }

  /** Every kept line is stripped and newline-free. */
  lemma {:induction false} CodeLinesStripped(lines: seq<string>)
    requires NoNewlines(lines)
    ensures forall k :: 0 <= k < |CodeLines(lines)| ==>
              '\n' !in CodeLines(lines)[k] && IsStripped(CodeLines(lines)[k])
    decreases |lines|
  {
    if |lines| > 0 {
      var init := lines[..|lines| - 1];
      var line := lines[|lines| - 1];
      CodeLinesStripped(init);
      StripFacts(line);
      StripChars(line, '\n');
    }
  }

  /** Every kept line is non-empty and free of markers. */
  lemma {:induction false} CodeLinesAreCode(lines: seq<string>)
    ensures forall k :: 0 <= k < |CodeLines(lines)| ==> IsCodeLine(CodeLines(lines)[k])
    decreases |lines|
  {
    if |lines| > 0 {
      CodeLinesAreCode(lines[..|lines| - 1]);
    }
  }

  lemma CodeLinesShape(lines: seq<string>)
    requires NoNewlines(lines)
    ensures NoNewlines(CodeLines(lines))
    ensures forall k :: 0 <= k < |CodeLines(lines)| ==>
              IsCodeLine(CodeLines(lines)[k]) && IsStripped(CodeLines(lines)[k])
  {
    CodeLinesStripped(lines);
    CodeLinesAreCode(lines);
  }

  /** The cleaner filters piecewise, so it keeps the input's line order. */
  lemma {:induction false} CodeLinesAppend(a: seq<string>, b: seq<string>)
    ensures CodeLines(a + b) == CodeLines(a) + CodeLines(b)
    decreases |b|
  {
    if |b| == 0 {
      assert a + b == a;
    } else {
      assert (a + b)[..|a + b| - 1] == a + b[..|b| - 1];
      CodeLinesAppend(a, b[..|b| - 1]);
    }
  }

  /** Lines that are already stripped code lines pass through unchanged. */
  lemma {:induction false} CodeLinesFixed(lines: seq<string>)
    requires forall k :: 0 <= k < |lines| ==> IsCodeLine(lines[k]) && IsStripped(lines[k])
    ensures CodeLines(lines) == lines
    decreases |lines|
  {
    if |lines| > 0 {
      var init, last := lines[..|lines| - 1], lines[|lines| - 1];
      CodeLinesFixed(init);
      StrippedFixed(last);
      assert lines == init + [last];
      assert IsCodeLine(Strip(last));
    }
  }

  /** Cleaning twice is cleaning once. */
  lemma CleanedTextIdempotent(text: string)
    ensures CleanedText(CleanedText(text)) == CleanedText(text)
  {
    var ls := CodeLines(Split(text));
    CodeLinesShape(Split(text));
    if |ls| == 0 {
      assert CleanedText(text) == "";
      assert Split("") == [""];
      assert CodeLines([""]) == CodeLines([]) + [];
    } else {
      SplitJoin(ls);
      CodeLinesFixed(ls);
    }
  }

  /** Every line of a non-empty cleaned text is a stripped code line. */
  lemma CleanedTextLines(text: string)
    requires CleanedText(text) != ""
    ensures forall k :: 0 <= k < |Split(CleanedText(text))| ==>
              IsCodeLine(Split(CleanedText(text))[k]) && IsStripped(Split(CleanedText(text))[k])
  {
    var ls := CodeLines(Split(text));
    CodeLinesShape(Split(text));
    SplitJoin(ls);
  }

  // ---------------------------------------------------------------------------
  // extract_implementation / extract_verilog_code
  // ---------------------------------------------------------------------------

  /** Index of the first `)` at or after `i`, or -1. */
  function CloseParen(s: string, i: nat): (r: int)
    requires i <= |s|
    ensures r == -1 || (i <= r < |s| && s[r] == ')')
    decreases |s| - i
  {
    if i == |s| then -1 else if s[i] == ')' then i else CloseParen(s, i + 1)
  }

  /** Length of a match of `module\s+\w+\s*\([^)]*\)\s*;` at the start of `s`, or 0.
      The character classes of neighbouring parts are disjoint, so each part takes
      its longest run and no backtracking changes the match. */
  function HeaderMatch(s: string): (k: nat)
    ensures k <= |s|
  {
    if !StartsWith(s, "module") then 0
    else
      var sp := SpaceRun(s, 6);
      var w := if sp == 0 then 0 else WordRun(s, 6 + sp);
      if w == 0 then 0
      else
        var b := 6 + sp + w + SpaceRun(s, 6 + sp + w);
        if b == |s| || s[b] != '(' then 0
        else
          var c := CloseParen(s, b + 1);
          if c < 0 then 0
          else
            var e := c + 1 + SpaceRun(s, c + 1);
            if e == |s| || s[e] != ';' then 0 else e + 1
  }

  /** `re.sub(r'module\s+\w+\s*\([^)]*\)\s*;', '', s)`. */
  function RemoveHeaders(s: string): (r: string)
    ensures |r| <= |s|
  {
    if |s| == 0 then ""
    else
      var k := HeaderMatch(s);
      if k > 0 then RemoveHeaders(s[k..]) else [s[0]] + RemoveHeaders(s[1..])
  }

  /** Index of the first newline at or after `i`, or `|s|`. */
  function LineEnd(s: string, i: nat): (r: nat)
    requires i <= |s|
    ensures i <= r <= |s| && (r == |s| || s[r] == '\n')
    decreases |s| - i
  {
    if i == |s| || s[i] == '\n' then i else LineEnd(s, i + 1)
  }

  /** `endmodule.*$` matches at `p`: the rest of that line runs to the end of the
      text, or to a newline that is the text's last character. */
  predicate EndTailAt(s: string, p: nat)
    requires p <= |s|
  {
    OccursAt(s, "endmodule", p) && LineEnd(s, p + 9) + 1 >= |s|
  }

  /** The leftmost position at or after `i` where `endmodule.*$` matches, or -1. */
  function EndTailFrom(s: string, i: nat): (r: int)
    requires i <= |s|
    ensures r == -1 || (i <= r <= |s| && EndTailAt(s, r))
    decreases |s| - i
  {
    if EndTailAt(s, i) then i else if i == |s| then -1 else EndTailFrom(s, i + 1)
  }

  /** `re.sub(r'endmodule.*$', '', s)`: only the final line can hold a match, and the
      text left after it is at most the final newline. */
  function RemoveEndTail(s: string): string {
    var p := EndTailFrom(s, 0);
    if p < 0 then s else s[..p] + s[LineEnd(s, p + 9)..]
  }

  /** The non-empty stripped lines, in order. */
  function NonBlankStripped(lines: seq<string>): seq<string> {
    if |lines| == 0 then []
    else
      var line := Strip(lines[|lines| - 1]);
      NonBlankStripped(lines[..|lines| - 1]) + (if line != "" then [line] else [])
  }

  /** `extract_implementation`: drop module headers and the trailing `endmodule`, then
      keep the non-empty stripped lines. */
  function ExtractImplementation(text: string): string {
    Join("\n", NonBlankStripped(Split(RemoveEndTail(RemoveHeaders(text)))))
  }

  lemma {:induction false} NonBlankStrippedShape(lines: seq<string>)
    requires NoNewlines(lines)
    ensures forall k :: 0 <= k < |NonBlankStripped(lines)| ==>
              NonBlankStripped(lines)[k] != "" && IsStripped(NonBlankStripped(lines)[k]) &&
              '\n' !in NonBlankStripped(lines)[k]
    decreases |lines|
  {
    if |lines| > 0 {
      var line := lines[|lines| - 1];
      NonBlankStrippedShape(lines[..|lines| - 1]);
      StripFacts(line);
      StripChars(line, '\n');
    }
  }

  /** The implementation has no blank line and every line of it is stripped. */
  lemma ImplementationLines(text: string)
    requires ExtractImplementation(text) != ""
    ensures forall k :: 0 <= k < |Split(ExtractImplementation(text))| ==>
              Split(ExtractImplementation(text))[k] != "" &&
              IsStripped(Split(ExtractImplementation(text))[k])
  {
    var ls := NonBlankStripped(Split(RemoveEndTail(RemoveHeaders(text))));
    NonBlankStrippedShape(Split(RemoveEndTail(RemoveHeaders(text))));
    SplitJoin(ls);
  }

  lemma EndmoduleHasModule(s: string)
    requires Contains(s, "endmodule")
    ensures Contains(s, "module")
  {
    ContainsOccurs(s, "endmodule");
    var p :| 0 <= p <= |s| && OccursAt(s, "endmodule", p);
    assert s[p + 3..p + 9] == s[p..p + 9][3..];
    assert OccursAt(s, "module", p + 3);
    ContainsOccurs(s, "module");
  }

  lemma {:induction false} RemoveHeadersNoModule(s: string)
    requires !Contains(s, "module")
    ensures RemoveHeaders(s) == s
    decreases |s|
  {
    if |s| > 0 {
      assert !StartsWith(s, "module");
      RemoveHeadersNoModule(s[1..]);
    }
  }

  lemma {:induction false} EndTailFromNone(s: string, i: nat)
    requires i <= |s|
    requires !Contains(s, "endmodule")
    ensures EndTailFrom(s, i) == -1
    decreases |s| - i
  {
    ContainsOccurs(s, "endmodule");
    assert !EndTailAt(s, i);
    if i < |s| {
      EndTailFromNone(s, i + 1);
    }
  }

  /** Without a `module` keyword only blank lines and surrounding spaces go. */
  lemma ImplementationWithoutModule(text: string)
    requires !Contains(text, "module")
    ensures ExtractImplementation(text) == Join("\n", NonBlankStripped(Split(text)))
  {
    RemoveHeadersNoModule(text);
    if Contains(text, "endmodule") {
      EndmoduleHasModule(text);
    }
    EndTailFromNone(text, 0);
  }

  /** The module skeleton `extract_verilog_code` puts around an implementation. */
  function VerilogTemplate(interface: string): string {
    "\n`timescale 1ns / 1ps\n`define RESET_VAL 4'b0000\n\nmodule top_module(\n" + interface + "\n);\n"
  }

  /** The answer with fences, "Here's ...:" / "Here is ...:" preambles and chatter lines removed. */
  function CleanedAnswer(text: string): string {
    CleanedText(RemovePreamble(RemovePreamble(RemoveFences(text), "Here's "), "Here is "))
  }

  /** `extract_verilog_code`: with a non-empty interface and a non-empty
      implementation, the implementation inside the skeleton; otherwise the cleaned
      answer. */
  function ExtractVerilogCode(text: string, interface: Option<string>): string {
    var cleaned := CleanedAnswer(text);
    if interface.Some? && interface.value != "" && ExtractImplementation(cleaned) != "" then
      VerilogTemplate(interface.value) + ExtractImplementation(cleaned) + "\nendmodule"
    else cleaned
  }

  /** A wrapped result opens with the skeleton, holds the implementation's stripped
      non-blank lines and closes with `endmodule`; any other result is the answer
      cleaned, a text the cleaner leaves as it is. */
  lemma ExtractVerilogCodeCases(text: string, interface: Option<string>)
    ensures var r := ExtractVerilogCode(text, interface);
      var impl := ExtractImplementation(CleanedAnswer(text));
      if interface.Some? && interface.value != "" && impl != "" then
        StartsWith(r, VerilogTemplate(interface.value)) && EndsWith(r, "\nendmodule") &&
        r[|VerilogTemplate(interface.value)|..|r| - 10] == impl &&
        forall k :: 0 <= k < |Split(impl)| ==> Split(impl)[k] != "" && IsStripped(Split(impl)[k])
      else
        r == CleanedAnswer(text) && CleanedText(r) == r
  {
    var impl := ExtractImplementation(CleanedAnswer(text));
    var r := ExtractVerilogCode(text, interface);
    if interface.Some? && interface.value != "" && impl != "" {
      var t := VerilogTemplate(interface.value);
      assert r == t + impl + "\nendmodule";
      assert r[|t|..|r| - 10] == impl;
      ImplementationLines(CleanedAnswer(text));
    } else {
      CleanedTextIdempotent(RemovePreamble(RemovePreamble(RemoveFences(text), "Here's "), "Here is "));
    }
  }

  // ---------------------------------------------------------------------------
  // ensure_verilog_basics
  // ---------------------------------------------------------------------------

  /** A compiler directive line: a stripped line starting with a backquote. */
  predicate IsDirective(line: string) {
    StartsWith(line, "`")
  }

  /** Distinct, stripped, newline-free directive lines. */
  predicate DirectiveList(ds: seq<string>) {
    (forall i, j :: 0 <= i < j < |ds| ==> ds[i] != ds[j]) &&
    (forall i :: 0 <= i < |ds| ==> IsDirective(ds[i]) && IsStripped(ds[i]) && '\n' !in ds[i])
  }

  function AddDirective(acc: seq<string>, line: string): seq<string> {
    if IsDirective(line) && line !in acc then acc + [line] else acc
  }

  /** The directive list after the lines `lines`, starting from `acc`. */
  function DirectivesFrom(acc: seq<string>, lines: seq<string>): seq<string> {
    if |lines| == 0 then acc
    else AddDirective(DirectivesFrom(acc, lines[..|lines| - 1]), Strip(lines[|lines| - 1]))
  }

  /** The stripped non-directive lines, blanks included. */
  function ModuleCode(lines: seq<string>): seq<string> {
    if |lines| == 0 then []
    else
      var line := Strip(lines[|lines| - 1]);
      ModuleCode(lines[..|lines| - 1]) + (if IsDirective(line) then [] else [line])
  }

  function NonBlank(lines: seq<string>): seq<string> {
    if |lines| == 0 then []
    else NonBlank(lines[..|lines| - 1]) + (if lines[|lines| - 1] != "" then [lines[|lines| - 1]] else [])
  }

  /** The directives, a blank line, then the non-blank body lines. */
  function Assemble(directives: seq<string>, moduleCode: seq<string>): string {
    Join("\n", directives) + "\n\n" + Join("\n", NonBlank(moduleCode))
  }

  function RStripEach(lines: seq<string>): (r: seq<string>)
    ensures |r| == |lines| && forall k :: 0 <= k < |lines| ==> r[k] == RStrip(lines[k])
  {
    seq(|lines|, k requires 0 <= k < |lines| => RStrip(lines[k]))
  }

  /** `'\n'.join(line.rstrip() for line in s.split('\n'))`. */
  function RStripLines(s: string): string {
    Join("\n", RStripEach(Split(s)))
  }

  function VerilogBasics(code: string): string {
    RStripLines(Assemble(DirectivesFrom([], Split(code)), ModuleCode(Split(code))))
  }

  lemma BasicsStep(lines: seq<string>, i: nat)
    requires i < |lines|
    ensures DirectivesFrom([], lines[..i + 1]) == AddDirective(DirectivesFrom([], lines[..i]), Strip(lines[i]))
    ensures ModuleCode(lines[..i + 1]) ==
              ModuleCode(lines[..i]) + (if IsDirective(Strip(lines[i])) then [] else [Strip(lines[i])])
  {
    assert lines[..i + 1][..i] == lines[..i];
  }

  /** `ensure_verilog_basics`: collects each directive line once and the other lines
      in order, then emits the directives, a blank line and the non-blank body. */
  method EnsureVerilogBasics(code: string) returns (r: string)
    ensures r == VerilogBasics(code)
  {
    var directives: seq<string> := [];
    var moduleCode: seq<string> := [];
    var lines := Split(code);
    var i := 0;
    while i < |lines|
      invariant 0 <= i <= |lines|
      invariant directives == DirectivesFrom([], lines[..i])
      invariant moduleCode == ModuleCode(lines[..i])
    {
      BasicsStep(lines, i);
      var line := Strip(lines[i]);
      if StartsWith(line, "`") {
        if line !in directives {
          directives := directives + [line];
        }
      } else {
        moduleCode := moduleCode + [line];
      }
      i := i + 1;
    }
    assert lines[..i] == lines;
    r := Join("\n", directives);
    r := r + "\n\n" + Join("\n", NonBlank(moduleCode));
    r := Join("\n", RStripEach(Split(r)));
  }

  /** Collecting directives keeps the list distinct and only ever extends it. */
  lemma {:induction false} DirectivesFromShape(acc: seq<string>, lines: seq<string>)
    requires DirectiveList(acc) && NoNewlines(lines)
    ensures DirectiveList(DirectivesFrom(acc, lines))
    ensures acc <= DirectivesFrom(acc, lines)
    decreases |lines|
  {
    if |lines| > 0 {
      var line := lines[|lines| - 1];
      var prev := DirectivesFrom(acc, lines[..|lines| - 1]);
      DirectivesFromShape(acc, lines[..|lines| - 1]);
      StripFacts(line);
      StripChars(line, '\n');
      assert DirectivesFrom(acc, lines)[..|acc|] == prev[..|acc|];
    }
  }

  /** A directive occurs in the list exactly when some line strips to it. */
  lemma {:induction false} DirectivesFromMembers(lines: seq<string>, d: string)
    ensures d in DirectivesFrom([], lines) <==>
              exists k :: 0 <= k < |lines| && Strip(lines[k]) == d && IsDirective(d)
    decreases |lines|
  {
    if |lines| > 0 {
      var init := lines[..|lines| - 1];
      DirectivesFromMembers(init, d);
      if exists k :: 0 <= k < |init| && Strip(init[k]) == d && IsDirective(d) {
        var k :| 0 <= k < |init| && Strip(init[k]) == d && IsDirective(d);
        assert lines[k] == init[k];
      }
      if exists k :: 0 <= k < |lines| && Strip(lines[k]) == d && IsDirective(d) {
        var k :| 0 <= k < |lines| && Strip(lines[k]) == d && IsDirective(d);
        if k < |init| {
          assert init[k] == lines[k];
        }
      }
    }
  }

  lemma {:induction false} DirectivesFromAppend(acc: seq<string>, a: seq<string>, b: seq<string>)
    ensures DirectivesFrom(acc, a + b) == DirectivesFrom(DirectivesFrom(acc, a), b)
    decreases |b|
  {
    if |b| == 0 {
      assert a + b == a;
    } else {
      assert (a + b)[..|a + b| - 1] == a + b[..|b| - 1];
      DirectivesFromAppend(acc, a, b[..|b| - 1]);
    }
  }

  /** The directives seen in a prefix of the lines open the full list: each
      directive keeps the place of its first occurrence. */
  lemma DirectivesFirstOccurrence(lines: seq<string>, k: nat)
    requires k <= |lines| && NoNewlines(lines)
    ensures DirectivesFrom([], lines[..k]) <= DirectivesFrom([], lines)
  {
    assert lines == lines[..k] + lines[k..];
    DirectivesFromAppend([], lines[..k], lines[k..]);
    DirectivesFromShape([], lines[..k]);
    DirectivesFromShape(DirectivesFrom([], lines[..k]), lines[k..]);
  }

  lemma {:induction false} ModuleCodeShape(lines: seq<string>)
    requires NoNewlines(lines)
    ensures forall k :: 0 <= k < |ModuleCode(lines)| ==>
              !IsDirective(ModuleCode(lines)[k]) && IsStripped(ModuleCode(lines)[k]) &&
              '\n' !in ModuleCode(lines)[k]
    decreases |lines|
  {
    if |lines| > 0 {
      var line := lines[|lines| - 1];
      ModuleCodeShape(lines[..|lines| - 1]);
      StripFacts(line);
      StripChars(line, '\n');
    }
  }

  lemma {:induction false} NonBlankSub(lines: seq<string>)
    ensures forall k :: 0 <= k < |NonBlank(lines)| ==> NonBlank(lines)[k] != "" && NonBlank(lines)[k] in lines
    decreases |lines|
  {
    if |lines| > 0 {
      var init := lines[..|lines| - 1];
      NonBlankSub(init);
      forall k | 0 <= k < |NonBlank(lines)|
        ensures NonBlank(lines)[k] != "" && NonBlank(lines)[k] in lines
      {
        if k < |NonBlank(init)| {
          assert NonBlank(lines)[k] == NonBlank(init)[k];
          assert NonBlank(init)[k] in init;
        }
      }
    }
  }

  /** The body lines of the output: stripped, non-blank, no directive. */
  predicate BodyList(ls: seq<string>) {
    forall k :: 0 <= k < |ls| ==> ls[k] != "" && !IsDirective(ls[k]) && IsStripped(ls[k]) && '\n' !in ls[k]
  }

  lemma BodyShape(lines: seq<string>)
    requires NoNewlines(lines)
    ensures BodyList(NonBlank(ModuleCode(lines)))
  {
    ModuleCodeShape(lines);
    NonBlankSub(ModuleCode(lines));
  }

  /** The lines of the output: the directives (or one empty line when there are
      none), an empty line, then the body (or one empty line when it is empty). */
  function Layout(ds: seq<string>, body: seq<string>): seq<string> {
    (if |ds| > 0 then ds + [""] else ["", ""]) + (if |body| > 0 then body else [""])
  }

  lemma SplitJoinOrEmpty(ls: seq<string>)
    requires NoNewlines(ls)
    ensures Split(Join("\n", ls)) == if |ls| > 0 then ls else [""]
  {
    if |ls| > 0 {
      SplitJoin(ls);
    }
  }

  lemma AssembleLines(ds: seq<string>, moduleCode: seq<string>)
    requires DirectiveList(ds) && BodyList(NonBlank(moduleCode))
    ensures Split(Assemble(ds, moduleCode)) == Layout(ds, NonBlank(moduleCode))
  {
    var body := NonBlank(moduleCode);
    assert NoNewlines(ds) && NoNewlines(body);
    SplitJoinOrEmpty(ds);
    SplitJoinOrEmpty(body);
    SplitAssemble(ds, body);
    var sd, sb := Split(Join("\n", ds)), Split(Join("\n", body));
    assert sd + ([""] + sb) == (sd + [""]) + sb;
  }

  /** The blank line between the two joins splits into one empty line. */
  lemma SplitAssemble(ds: seq<string>, body: seq<string>)
    ensures Split(Join("\n", ds) + "\n\n" + Join("\n", body)) ==
            Split(Join("\n", ds)) + ([""] + Split(Join("\n", body)))
  {
    var jd, jb := Join("\n", ds), Join("\n", body);
    assert jd + "\n\n" + jb == jd + "\n" + ("\n" + jb);
    SplitAppend(jd, "\n" + jb);
    assert "\n" + jb == "" + "\n" + jb;
    SplitAppend("", jb);
  }

  /** The final `rstrip` pass changes nothing: every assembled line is already stripped. */
  lemma AssembleIsRStripped(ds: seq<string>, moduleCode: seq<string>)
    requires DirectiveList(ds) && BodyList(NonBlank(moduleCode))
    ensures RStripLines(Assemble(ds, moduleCode)) == Assemble(ds, moduleCode)
  {
    var a := Assemble(ds, moduleCode);
    var lines := Split(a);
    AssembleLines(ds, moduleCode);
    forall k | 0 <= k < |lines|
      ensures RStrip(lines[k]) == lines[k]
    {
      assert IsStripped(lines[k]);
    }
    assert RStripEach(lines) == lines;
    JoinSplit(a);
  }

  /** The output holds the distinct directives first, then the body lines, which are
      non-blank, stripped and directive-free. */
  lemma VerilogBasicsLayout(code: string)
    ensures var ds := DirectivesFrom([], Split(code));
      var body := NonBlank(ModuleCode(Split(code)));
      DirectiveList(ds) && BodyList(body) &&
      VerilogBasics(code) == Assemble(ds, ModuleCode(Split(code))) &&
      Split(VerilogBasics(code)) == Layout(ds, body)
  {
    var lines := Split(code);
    DirectivesFromShape([], lines);
    BodyShape(lines);
    AssembleIsRStripped(DirectivesFrom([], lines), ModuleCode(lines));
    AssembleLines(DirectivesFrom([], lines), ModuleCode(lines));
  }

  lemma {:induction false} DirectivesFromSelf(ds: seq<string>)
    requires DirectiveList(ds)
    ensures DirectivesFrom([], ds) == ds
    decreases |ds|
  {
    if |ds| > 0 {
      var init := ds[..|ds| - 1];
      var last := ds[|ds| - 1];
      DirectiveListPrefix(ds);
      DirectivesFromSelf(init);
      assert IsDirective(last) && IsStripped(last);
      StripFacts(last);
      assert last !in init by {
        forall i | 0 <= i < |init|
          ensures init[i] != last
        {
          assert init[i] == ds[i];
        }
      }
      assert DirectivesFrom([], ds) == AddDirective(init, last);
      assert init + [last] == ds;
    }
  }

  /** Dropping the last directive leaves a directive list. */
  lemma DirectiveListPrefix(ds: seq<string>)
    requires DirectiveList(ds) && |ds| > 0
    ensures DirectiveList(ds[..|ds| - 1])
  {
    var init := ds[..|ds| - 1];
    forall i, j | 0 <= i < j < |init|
      ensures init[i] != init[j]
    {
      assert init[i] == ds[i] && init[j] == ds[j];
    }
    forall i | 0 <= i < |init|
      ensures IsDirective(init[i]) && IsStripped(init[i]) && '\n' !in init[i]
    {
      assert init[i] == ds[i];
    }
  }

  /** Lines without directives add nothing to the directive list. */
  lemma {:induction false} DirectivesFromNone(acc: seq<string>, lines: seq<string>)
    requires forall k :: 0 <= k < |lines| ==> !IsDirective(Strip(lines[k]))
    ensures DirectivesFrom(acc, lines) == acc
    decreases |lines|
  {
    if |lines| > 0 {
      DirectivesFromNone(acc, lines[..|lines| - 1]);
    }
  }

  lemma {:induction false} ModuleCodeAppend(a: seq<string>, b: seq<string>)
    ensures ModuleCode(a + b) == ModuleCode(a) + ModuleCode(b)
    decreases |b|
  {
    if |b| == 0 {
      assert a + b == a;
    } else {
      assert (a + b)[..|a + b| - 1] == a + b[..|b| - 1];
      ModuleCodeAppend(a, b[..|b| - 1]);
    }
  }

  lemma {:induction false} ModuleCodeOfDirectives(ds: seq<string>)
    requires forall k :: 0 <= k < |ds| ==> IsDirective(Strip(ds[k]))
    ensures ModuleCode(ds) == []
    decreases |ds|
  {
    if |ds| > 0 {
      ModuleCodeOfDirectives(ds[..|ds| - 1]);
    }
  }

  lemma {:induction false} ModuleCodeFixed(ls: seq<string>)
    requires forall k :: 0 <= k < |ls| ==> IsStripped(ls[k]) && !IsDirective(ls[k])
    ensures ModuleCode(ls) == ls
    decreases |ls|
  {
    if |ls| > 0 {
      ModuleCodeFixed(ls[..|ls| - 1]);
      StripFacts(ls[|ls| - 1]);
    }
  }

  lemma {:induction false} NonBlankAppend(a: seq<string>, b: seq<string>)
    ensures NonBlank(a + b) == NonBlank(a) + NonBlank(b)
    decreases |b|
  {
    if |b| == 0 {
      assert a + b == a;
    } else {
      assert (a + b)[..|a + b| - 1] == a + b[..|b| - 1];
      NonBlankAppend(a, b[..|b| - 1]);
    }
  }

  lemma {:induction false} NonBlankFixed(ls: seq<string>)
    requires forall k :: 0 <= k < |ls| ==> ls[k] != ""
    ensures NonBlank(ls) == ls
    decreases |ls|
  {
    if |ls| > 0 {
      NonBlankFixed(ls[..|ls| - 1]);
    }
  }

  /** The lines the layout puts after the directives: empty lines, then the body. */
  function LayoutRest(ds: seq<string>, body: seq<string>): seq<string> {
    (if |ds| > 0 then [""] else ["", ""]) + (if |body| > 0 then body else [""])
  }

  lemma LayoutRestShape(ds: seq<string>, body: seq<string>)
    requires BodyList(body)
    ensures forall k :: 0 <= k < |LayoutRest(ds, body)| ==>
              IsStripped(LayoutRest(ds, body)[k]) && !IsDirective(LayoutRest(ds, body)[k])
  {
    var rest := LayoutRest(ds, body);
    forall k | 0 <= k < |rest|
      ensures IsStripped(rest[k]) && !IsDirective(rest[k])
    {
      if rest[k] != "" {
        assert rest[k] in body;
      }
    }
  }

  /** Reading the layout back yields the same directive list. */
  lemma LayoutDirectives(ds: seq<string>, body: seq<string>)
    requires DirectiveList(ds) && BodyList(body)
    ensures DirectivesFrom([], Layout(ds, body)) == ds
  {
    var rest := LayoutRest(ds, body);
    LayoutRestShape(ds, body);
    forall k | 0 <= k < |rest|
      ensures !IsDirective(Strip(rest[k]))
    {
      StripFacts(rest[k]);
    }
    if |ds| > 0 {
      assert Layout(ds, body) == ds + rest;
      DirectivesFromAppend([], ds, rest);
      DirectivesFromSelf(ds);
      DirectivesFromNone(ds, rest);
    } else {
      assert Layout(ds, body) == rest;
      DirectivesFromNone([], rest);
    }
  }

  /** The module code of the layout is everything after the directives. */
  lemma LayoutModuleCode(ds: seq<string>, body: seq<string>)
    requires DirectiveList(ds) && BodyList(body)
    ensures ModuleCode(Layout(ds, body)) == LayoutRest(ds, body)
  {
    var rest := LayoutRest(ds, body);
    LayoutRestShape(ds, body);
    ModuleCodeFixed(rest);
    if |ds| > 0 {
      assert Layout(ds, body) == ds + rest;
      forall k | 0 <= k < |ds|
        ensures IsDirective(Strip(ds[k]))
      {
        StripFacts(ds[k]);
      }
      ModuleCodeAppend(ds, rest);
      ModuleCodeOfDirectives(ds);
    } else {
      assert Layout(ds, body) == rest;
    }
  }

  /** Dropping the blank lines after the directives leaves the body. */
  lemma LayoutRestNonBlank(ds: seq<string>, body: seq<string>)
    requires BodyList(body)
    ensures NonBlank(LayoutRest(ds, body)) == body
  {
    var blanks: seq<string> := if |ds| > 0 then [""] else ["", ""];
    var tail := if |body| > 0 then body else [""];
    assert LayoutRest(ds, body) == blanks + tail;
    NonBlankAppend(blanks, tail);
    assert NonBlank([""]) == [];
    assert NonBlank(["", ""]) == NonBlank([""]) + [];
    if |body| > 0 {
      NonBlankFixed(body);
    }
  }

  /** Reading the layout back yields the same body. */
  lemma LayoutBody(ds: seq<string>, body: seq<string>)
    requires DirectiveList(ds) && BodyList(body)
    ensures NonBlank(ModuleCode(Layout(ds, body))) == body
  {
    LayoutModuleCode(ds, body);
    LayoutRestNonBlank(ds, body);
  }

  /** Running the normaliser on its own output changes nothing. */
  lemma VerilogBasicsIdempotent(code: string)
    ensures VerilogBasics(VerilogBasics(code)) == VerilogBasics(code)
  {
    var lines := Split(code);
    var ds := DirectivesFrom([], lines);
    var body := NonBlank(ModuleCode(lines));
    VerilogBasicsLayout(code);
    var outLines := Split(VerilogBasics(code));
    LayoutDirectives(ds, body);
    LayoutBody(ds, body);
    assert Assemble(DirectivesFrom([], outLines), ModuleCode(outLines)) == Assemble(ds, ModuleCode(lines));
  }

  // ---------------------------------------------------------------------------
  // handle_simulation_output
  // ---------------------------------------------------------------------------

  /** A line is worth reading when it mentions one of these. */
  const ResultMarkers: seq<string> := ["Hint:", "Mismatches:", "Total"]

  /** A match of `Mismatches:\s*(\d+)\s*in` at `i`: the number. */
  function MismatchAt(line: string, i: nat): Option<nat>
    requires i <= |line|
  {
    if !OccursAt(line, "Mismatches:", i) then None
    else
      var a := i + 11 + SpaceRun(line, i + 11);
      var d := DigitRun(line, a);
      if d == 0 then None
      else
        var b := a + d + SpaceRun(line, a + d);
        if !OccursAt(line, "in", b) then None else Some(DigitsValue(line[a..a + d]))
  }

  /** `re.search` of that pattern from `i` on: the leftmost match. */
  function FirstMismatch(line: string, i: nat): Option<nat>
    requires i <= |line|
    decreases |line| - i
  {
    if MismatchAt(line, i).Some? then MismatchAt(line, i)
    else if i == |line| then None
    else FirstMismatch(line, i + 1)
  }

  /** The count a line reports: only lines that mention a result marker are searched. */
  function LineMismatch(line: string): Option<nat> {
    if MentionsAny(line, ResultMarkers) then FirstMismatch(line, 0) else None
  }

  /** The count of the last line that reports one, or the sentinel. */
  function LastMismatch(lines: seq<string>): Count {
    if |lines| == 0 then Infinite
    else
      match LineMismatch(lines[|lines| - 1])
      case Some(n) => Finite(n)
      case None => LastMismatch(lines[..|lines| - 1])
  }

  predicate ReportsZero(lines: seq<string>) {
    |lines| > 0 && (LineMismatch(lines[|lines| - 1]) == Some(0) || ReportsZero(lines[..|lines| - 1]))
  }

  /** What `handle_simulation_output` returns for a given simulator text. */
  function SimulationVerdict(stdout: string): (bool, Count) {
    if stdout == "" then (false, Infinite)
    else if ReportsZero(Split(stdout)) then (true, Finite(0))
    else (false, LastMismatch(Split(stdout)))
  }

  lemma VerdictStep(lines: seq<string>, i: nat)
    requires i < |lines|
    ensures LastMismatch(lines[..i + 1]) ==
              match LineMismatch(lines[i]) case Some(n) => Finite(n) case None => LastMismatch(lines[..i])
    ensures ReportsZero(lines[..i + 1]) <==> LineMismatch(lines[i]) == Some(0) || ReportsZero(lines[..i])
  {
    assert lines[..i + 1][..i] == lines[..i];
  }

  /** `handle_simulation_output`: scans the marked lines for `Mismatches: <n> in`; a
      zero anywhere is a success with count 0, otherwise the last reported count. The
      return code and error text are only logged. */
  method HandleSimulationOutput(returnCode: int, stderr: string, stdout: string)
      returns (success: bool, mismatchCount: Count)
    ensures (success, mismatchCount) == SimulationVerdict(stdout)
  {
    if stdout == "" {
      return false, Infinite;
    }
    mismatchCount := Infinite;
    success := false;
    var lines := Split(stdout);
    var i := 0;
    while i < |lines|
      invariant 0 <= i <= |lines|
      invariant mismatchCount == LastMismatch(lines[..i])
      invariant success == ReportsZero(lines[..i])
    {
      VerdictStep(lines, i);
      var line := lines[i];
      if MentionsAny(line, ResultMarkers) {
        var m := FirstMismatch(line, 0);
        if m.Some? {
          mismatchCount := Finite(m.value);
          if m.value == 0 {
            success := true;
          }
        }
      }
      i := i + 1;
    }
    assert lines[..i] == lines;
    if success {
      return true, Finite(0);
    }
  }

  lemma {:induction false} LastMismatchNone(lines: seq<string>)
    ensures LastMismatch(lines).Infinite? <==> forall k :: 0 <= k < |lines| ==> LineMismatch(lines[k]).None?
    decreases |lines|
  {
    if |lines| > 0 {
      var init := lines[..|lines| - 1];
      LastMismatchNone(init);
      assert forall k :: 0 <= k < |init| ==> init[k] == lines[k];
    }
  }

  /** A finite count comes from line `k`, and no later line reports one. */
  lemma {:induction false} LastMismatchLine(lines: seq<string>) returns (k: nat)
    requires LastMismatch(lines).Finite?
    ensures k < |lines| && LineMismatch(lines[k]) == Some(LastMismatch(lines).n)
    ensures forall j :: k < j < |lines| ==> LineMismatch(lines[j]).None?
    decreases |lines|
  {
    var init := lines[..|lines| - 1];
    if LineMismatch(lines[|lines| - 1]).Some? {
      k := |lines| - 1;
    } else {
      assert LastMismatch(lines) == LastMismatch(init);
      k := LastMismatchLine(init);
      assert forall j :: k < j < |init| ==> init[j] == lines[j];
      assert lines[k] == init[k];
    }
  }

  /** The last reported count: the sentinel exactly when no line reports one, and
      otherwise the count of a line after which none reports. */
  lemma LastMismatchFacts(lines: seq<string>)
    ensures LastMismatch(lines).Infinite? <==> forall k :: 0 <= k < |lines| ==> LineMismatch(lines[k]).None?
    ensures LastMismatch(lines).Finite? ==>
              exists k :: 0 <= k < |lines| && LineMismatch(lines[k]) == Some(LastMismatch(lines).n) &&
                forall j :: k < j < |lines| ==> LineMismatch(lines[j]).None?
  {
    LastMismatchNone(lines);
    if LastMismatch(lines).Finite? {
      var k := LastMismatchLine(lines);
    }
  }

  lemma {:induction false} ReportsZeroFacts(lines: seq<string>)
    ensures ReportsZero(lines) <==> exists k :: 0 <= k < |lines| && LineMismatch(lines[k]) == Some(0)
    decreases |lines|
  {
    if |lines| > 0 {
      var init := lines[..|lines| - 1];
      ReportsZeroFacts(init);
      if exists k :: 0 <= k < |init| && LineMismatch(init[k]) == Some(0) {
        var k :| 0 <= k < |init| && LineMismatch(init[k]) == Some(0);
        assert lines[k] == init[k];
      }
      if exists k :: 0 <= k < |lines| && LineMismatch(lines[k]) == Some(0) {
        var k :| 0 <= k < |lines| && LineMismatch(lines[k]) == Some(0);
        if k < |init| {
          assert init[k] == lines[k];
        }
      }
    }
  }

  /** Success means a count of 0 and happens exactly when some line reports 0; an
      empty text gives the sentinel; otherwise the count is the last one reported. */
  lemma SimulationVerdictFacts(stdout: string)
    ensures var (success, count) := SimulationVerdict(stdout);
      var lines := Split(stdout);
      (success ==> count == Finite(0)) &&
      (success <==> stdout != "" && exists k :: 0 <= k < |lines| && LineMismatch(lines[k]) == Some(0)) &&
      (stdout == "" ==> count == Infinite) &&
      (stdout != "" && !success ==> count == LastMismatch(lines)) &&
      (count.Infinite? <==> stdout == "" || forall k :: 0 <= k < |lines| ==> LineMismatch(lines[k]).None?)
  {
    ReportsZeroFacts(Split(stdout));
    LastMismatchFacts(Split(stdout));
  }

  // ---------------------------------------------------------------------------
  // main: compile-error feedback
  // ---------------------------------------------------------------------------

  const UndeclaredHint := "- Port/Signal Issues: Ensure all signals are properly declared"
  const LeftHandSideHint := "- Assignment Issues: Check assignment types and target signals"
  const SyntaxHint := "- Syntax Issues: Verify Verilog syntax and statements"

  /** The place of a hint in the fixed order. */
  function HintRank(hint: string): nat {
    if hint == UndeclaredHint then 0 else if hint == LeftHandSideHint then 1 else 2
  }

  /** The hint list for a failed compile: one hint per error phrase present, in a fixed order. */
  function ErrorAnalysis(compileOutput: string): (r: seq<string>)
    ensures UndeclaredHint in r <==> Contains(compileOutput, "undeclared identifier")
    ensures LeftHandSideHint in r <==> Contains(compileOutput, "not a valid left-hand side")
    ensures SyntaxHint in r <==> Contains(compileOutput, "Syntax error")
    ensures forall k :: 0 <= k < |r| ==> r[k] in [UndeclaredHint, LeftHandSideHint, SyntaxHint]
    ensures forall i, j :: 0 <= i < j < |r| ==> HintRank(r[i]) < HintRank(r[j])
  {
    (if Contains(compileOutput, "undeclared identifier") then [UndeclaredHint] else []) +
    (if Contains(compileOutput, "not a valid left-hand side") then [LeftHandSideHint] else []) +
    (if Contains(compileOutput, "Syntax error") then [SyntaxHint] else [])
  }

  const FeedbackOpening := "Compilation failed. Analysis:\n"

  /** The opening of the failed-compile message: the hints, then the heading of the
      quoted compiler output. */
  function AnalysisHeader(compileOutput: string): string {
    FeedbackOpening + Join("\n", ErrorAnalysis(compileOutput)) + "\n\nOriginal compilation errors:\n"
  }

  /** The best code so far, or a note that there is none (`best_code` is falsy). */
  function BestCodeText(bestCode: Option<string>): string {
    if bestCode.Some? && bestCode.value != "" then "Best working code so far:\n" + bestCode.value
    else "No working solution yet"
  }

  /** What follows the quoted compiler output: the best count, the best code or a
      note that there is none, and the line break and indentation of the closing
      triple quote. */
  function BestReport(bestMismatches: Count, bestCode: Option<string>): string {
    BestCountLine(bestMismatches) + BestCodeText(bestCode) + FeedbackClosing
  }

  function BestCountLine(bestMismatches: Count): string {
    "\n\nPrevious best approach had " + CountText(bestMismatches) + " mismatches.\n"
  }

  const FeedbackClosing := "\n                    "

  /** The user message sent after a failed compile. */
  function ErrorFeedback(compileOutput: string, bestMismatches: Count, bestCode: Option<string>): string {
    AnalysisHeader(compileOutput) + compileOutput + BestReport(bestMismatches, bestCode)
  }

  /** The feedback opens with the analysis, quotes the compiler output, and quotes
      the best code exactly when there is some. */
  lemma ErrorFeedbackQuotes(compileOutput: string, bestMismatches: Count, bestCode: Option<string>)
    ensures var f := ErrorFeedback(compileOutput, bestMismatches, bestCode);
      StartsWith(f, FeedbackOpening) && Contains(f, compileOutput) &&
      (bestCode.Some? && bestCode.value != "" ==> Contains(f, "Best working code so far:\n" + bestCode.value)) &&
      (!(bestCode.Some? && bestCode.value != "") ==> Contains(f, "No working solution yet"))
  {
    var head := AnalysisHeader(compileOutput);
    var report := BestReport(bestMismatches, bestCode);
    var best := BestCodeText(bestCode);
    HeaderOpens(compileOutput, compileOutput + report);
    assert head + compileOutput + report == head + (compileOutput + report);
    ContainsPrefix(compileOutput, compileOutput);
    ContainsAppend(head, compileOutput, report, compileOutput);
    ReportQuotesBest(bestMismatches, bestCode);
    ContainsWithin(head + compileOutput, report, best);
  }

  /** Whatever follows it, the analysis header opens the message. */
  lemma HeaderOpens(compileOutput: string, rest: string)
    ensures StartsWith(AnalysisHeader(compileOutput) + rest, FeedbackOpening)
  {
    var head := AnalysisHeader(compileOutput);
    assert head[..|FeedbackOpening|] == FeedbackOpening;
    assert (head + rest)[..|FeedbackOpening|] == head[..|FeedbackOpening|];
  }

  /** The report after the compiler output quotes the best code, or says there is none. */
  lemma ReportQuotesBest(bestMismatches: Count, bestCode: Option<string>)
    ensures Contains(BestReport(bestMismatches, bestCode), BestCodeText(bestCode))
  {
    var best := BestCodeText(bestCode);
    ContainsPrefix(best, best);
    ContainsAppend(BestCountLine(bestMismatches), best, FeedbackClosing, best);
  }

  // ---------------------------------------------------------------------------
  // main: the iteration loop
  // ---------------------------------------------------------------------------

  /** What `main` asks of the outside world, as functions of what it hands over;
      `None` stands for a call that raised, which the loop skips with `continue`. */
  datatype MainTools = MainTools(
    /** The parsed text of the first candidate for the conversation so far. */
    generate: seq<Message> -> Option<string>,
    /** The compiler's output for the design written in iteration `i`. */
    compile: (nat, string) -> Option<string>,
    /** The simulator's `(ok, stdout, stderr)` for that design. */
    simulate: (nat, string) -> Option<(bool, string, string)>)

  const FixRequest := "Analyze and fix these compilation errors"

  /** `best_code and best_mismatches < float('inf')`: the loop resubmits the best design. */
  predicate Reuses(bestMismatches: Count, bestCode: Option<string>) {
    bestCode.Some? && bestCode.value != "" && bestMismatches.Finite?
  }

  /** The count `main` settles on: the handler's, forced to 0 when the text carries
      one of the two zero-mismatch phrases. */
  function MainCount(stdout: string): (r: Count)
    ensures SimulationVerdict(stdout).0 ==> r == Finite(0)
    ensures r != SimulationVerdict(stdout).1 ==> r == Finite(0)
  {
    SimulationVerdictFacts(stdout);
    if stdout != "" && (Contains(stdout, "Total mismatched samples is 0") || Contains(stdout, "Mismatches: 0 in"))
    then Finite(0)
    else SimulationVerdict(stdout).1
  }

  /** The simulate branch of one iteration, for a design that compiled: the new
      best count and code, and whether the loop breaks. */
  method SimulateDesign(iteration: nat, verilogCode: string, tools: MainTools,
                        bestMismatches: Count, bestCode: Option<string>)
      returns (stop: bool, newBest: Count, newBestCode: Option<string>)
    requires bestMismatches != Finite(0)
    ensures newBest == bestMismatches || newBest.Less(bestMismatches)
    ensures newBest == bestMismatches ==> newBestCode == bestCode
    ensures newBest != bestMismatches ==> newBest.Finite? && newBestCode == Some(verilogCode)
    ensures stop <==> newBest == Finite(0)
    ensures tools.simulate(iteration, verilogCode).None? ==> newBest == bestMismatches
    ensures tools.simulate(iteration, verilogCode).Some? ==>
              (newBest == if MainCount(tools.simulate(iteration, verilogCode).value.2).Less(bestMismatches)
                         then MainCount(tools.simulate(iteration, verilogCode).value.2) else bestMismatches)
  {
    stop, newBest, newBestCode := false, bestMismatches, bestCode;
    var run := tools.simulate(iteration, verilogCode);
    if run.None? {
      return;
    }
    // the backend answers (ok, stdout, stderr); the caller names them (return_code, stderr, stdout)
    var returnCode, stderr, stdout := if run.value.0 then 1 else 0, run.value.1, run.value.2;
    var success, mismatchCount := HandleSimulationOutput(returnCode, stderr, stdout);
    if stdout != "" && (Contains(stdout, "Total mismatched samples is 0") || Contains(stdout, "Mismatches: 0 in")) {
      success := true;
      mismatchCount := Finite(0);
    }
    assert mismatchCount == MainCount(stdout);
    if mismatchCount.Less(bestMismatches) {
      newBest := mismatchCount;
      newBestCode := Some(verilogCode);
    }
    if mismatchCount == Finite(0) {
      stop := true;
    }
  }

  /** The design an iteration submits: the best one when it is reusable, otherwise
      the first candidate's text cleaned and normalised (`None` when generation raised). */
  method ChooseDesign(conv: Conversation, interface: Option<string>, tools: MainTools,
                      bestMismatches: Count, bestCode: Option<string>)
      returns (design: Option<string>)
    ensures Reuses(bestMismatches, bestCode) ==> design == bestCode
    ensures !Reuses(bestMismatches, bestCode) ==>
              design == match tools.generate(conv.messages)
                        case Some(text) => Some(VerilogBasics(ExtractVerilogCode(text, interface)))
                        case None => None
  {
    if bestCode.Some? && bestCode.value != "" && bestMismatches.Finite? {
      design := bestCode;
    } else {
      var response := tools.generate(conv.messages);
      if response.None? {
        return None;
      }
      var verilogCode := ExtractVerilogCode(response.value, interface);
      verilogCode := EnsureVerilogBasics(verilogCode);
      design := Some(verilogCode);
    }
  }

  /** The design a pass submits for the conversation `messages`: the best one when
      it is reusable, otherwise the first candidate's text cleaned and normalised;
      `None` when generation raised. */
  function DesignFor(messages: seq<Message>, interface: Option<string>, tools: MainTools,
                     best: Count, bestCode: Option<string>): Option<string> {
    if Reuses(best, bestCode) then bestCode
    else match tools.generate(messages)
         case Some(text) => Some(VerilogBasics(ExtractVerilogCode(text, interface)))
         case None => None
  }

  /** What a pass leaves: the best count and code after it, and the messages it adds. */
  datatype PassEffect = PassEffect(best: Count, bestCode: Option<string>, added: seq<Message>)

  /** The effect of submitting `design` in pass `iteration` with the best `(best,
      bestCode)`: a compile output that is non-empty and says `SUCCESS` leads to the
      simulation, whose count (as `main` settles it) becomes the best when it is lower;
      any other non-empty output adds the fix request and the analysis of that output;
      an empty output, and a call that raised, change nothing. */
  function PassAfter(iteration: nat, design: Option<string>, tools: MainTools,
                     best: Count, bestCode: Option<string>): PassEffect {
    if design.None? || tools.compile(iteration, design.value).None? then PassEffect(best, bestCode, [])
    else
      var out := tools.compile(iteration, design.value).value;
      if out != "" && Contains(out, "SUCCESS") then
        match tools.simulate(iteration, design.value)
        case Some(run) =>
          if MainCount(run.2).Less(best) then PassEffect(MainCount(run.2), design, [])
          else PassEffect(best, bestCode, [])
        case None => PassEffect(best, bestCode, [])
      else if out != "" then
        PassEffect(best, bestCode, [Message("system", FixRequest), Message("user", ErrorFeedback(out, best, bestCode))])
      else PassEffect(best, bestCode, [])
  }

  /** The best count after a pass is the one before or lower; the best code moves only
      with the count, and then to the design submitted. */
  lemma PassNeverWorsens(iteration: nat, design: Option<string>, tools: MainTools, best: Count,
                         bestCode: Option<string>)
    ensures var e := PassAfter(iteration, design, tools, best, bestCode);
      (e.best == best || e.best.Less(best)) &&
      (e.best == best ==> e.bestCode == bestCode) &&
      (e.best != best ==> e.best.Finite? && design.Some? && e.bestCode == design)
  {
    if design.Some? && tools.compile(iteration, design.value).Some? {
      match tools.simulate(iteration, design.value)
      case Some(run) =>
        if MainCount(run.2).Less(best) {
          assert MainCount(run.2) != best;
        }
      case None =>
    }
  }

  /** A pass lowers the best only through a compile that says `SUCCESS` and a
      simulation whose count is that new best. */
  lemma PassImprovesBySimulation(iteration: nat, design: Option<string>, tools: MainTools, best: Count,
                                 bestCode: Option<string>)
    requires PassAfter(iteration, design, tools, best, bestCode).best != best
    ensures design.Some? && tools.compile(iteration, design.value).Some?
    ensures var out := tools.compile(iteration, design.value).value; out != "" && Contains(out, "SUCCESS")
    ensures tools.simulate(iteration, design.value).Some? &&
            PassAfter(iteration, design, tools, best, bestCode).best ==
              MainCount(tools.simulate(iteration, design.value).value.2)
  {
  }

  /** A pass adds messages exactly when the compiler answered with a non-empty output
      that does not say `SUCCESS`; it adds the fix request and an analysis that quotes
      the output, and leaves the best as it was. */
  lemma PassAddsFixPair(iteration: nat, design: Option<string>, tools: MainTools, best: Count,
                        bestCode: Option<string>)
    ensures var e := PassAfter(iteration, design, tools, best, bestCode);
      (|e.added| > 0 <==>
         design.Some? && tools.compile(iteration, design.value).Some? &&
         tools.compile(iteration, design.value).value != "" &&
         !Contains(tools.compile(iteration, design.value).value, "SUCCESS")) &&
      (|e.added| > 0 ==>
         e.best == best && e.bestCode == bestCode && |e.added| == 2 &&
         e.added[0] == Message("system", FixRequest) && e.added[1].role == "user" &&
         StartsWith(e.added[1].content, FeedbackOpening) &&
         Contains(e.added[1].content, tools.compile(iteration, design.value).value))
  {
    if design.Some? && tools.compile(iteration, design.value).Some? {
      ErrorFeedbackQuotes(tools.compile(iteration, design.value).value, best, bestCode);
    }
  }

  /** Whether a pass added the fix request and the analysis to the conversation. */
  predicate AddsFixPair(before: seq<Message>, after: seq<Message>) {
    |after| == |before| + 2 && after[..|before|] == before &&
    after[|before|] == Message("system", FixRequest) && after[|before| + 1].role == "user" &&
    StartsWith(after[|before| + 1].content, FeedbackOpening)
  }

  /** The body of one `try` block of the loop, for a best count that is not yet 0.
      `stop` is the `break` on a zero count; `submitted` is the design compiled. */
  method MainIteration(iteration: nat, conv: Conversation, interface: Option<string>, tools: MainTools,
                       bestMismatches: Count, bestCode: Option<string>)
      returns (stop: bool, newBest: Count, newBestCode: Option<string>, ghost submitted: Option<string>)
    requires bestMismatches != Finite(0)
    modifies conv
    ensures newBest == bestMismatches || newBest.Less(bestMismatches)
    ensures newBest == bestMismatches ==> newBestCode == bestCode
    ensures newBest != bestMismatches ==> newBest.Finite? && submitted.Some? && newBestCode == submitted
    ensures stop <==> newBest == Finite(0)
    ensures Reuses(bestMismatches, bestCode) ==> submitted == bestCode
    ensures !Reuses(bestMismatches, bestCode) && submitted.Some? ==>
              tools.generate(old(conv.messages)).Some? &&
              submitted.value == VerilogBasics(ExtractVerilogCode(tools.generate(old(conv.messages)).value, interface))
    ensures conv.messages == old(conv.messages) || AddsFixPair(old(conv.messages), conv.messages)
    ensures submitted == DesignFor(old(conv.messages), interface, tools, bestMismatches, bestCode)
    ensures var e := PassAfter(iteration, submitted, tools, bestMismatches, bestCode);
      newBest == e.best && newBestCode == e.bestCode && conv.messages == old(conv.messages) + e.added
  {
    stop, newBest, newBestCode := false, bestMismatches, bestCode;
    var design := ChooseDesign(conv, interface, tools, bestMismatches, bestCode);
    submitted := design;
    if design.Some? {
      stop, newBest, newBestCode := SubmitDesign(iteration, conv, design.value, tools, bestMismatches, bestCode);
    }
    PassNeverWorsens(iteration, submitted, tools, bestMismatches, bestCode);
    PassAddsFixPair(iteration, submitted, tools, bestMismatches, bestCode);
    AddsFixPairIntro(old(conv.messages), PassAfter(iteration, submitted, tools, bestMismatches, bestCode).added);
  }

  /** The rest of a pass once a design is chosen: compile it, then simulate it or
      ask for a fix, as `PassAfter` says. */
  method SubmitDesign(iteration: nat, conv: Conversation, verilogCode: string, tools: MainTools,
                      bestMismatches: Count, bestCode: Option<string>)
      returns (stop: bool, newBest: Count, newBestCode: Option<string>)
    requires bestMismatches != Finite(0)
    modifies conv
    ensures var e := PassAfter(iteration, Some(verilogCode), tools, bestMismatches, bestCode);
      newBest == e.best && newBestCode == e.bestCode && conv.messages == old(conv.messages) + e.added
    ensures stop <==> newBest == Finite(0)
  {
    stop, newBest, newBestCode := false, bestMismatches, bestCode;
    var compileOutput := tools.compile(iteration, verilogCode);
    if compileOutput.None? {
      return;
    }
    if compileOutput.value != "" && Contains(compileOutput.value, "SUCCESS") {
      stop, newBest, newBestCode := SimulateDesign(iteration, verilogCode, tools, bestMismatches, bestCode);
    } else if compileOutput.value != "" {
      conv.AddMessage("system", FixRequest);
      var feedback := ErrorFeedback(compileOutput.value, bestMismatches, bestCode);
      conv.AddMessage("user", feedback);
    }
  }

  /** Added messages of the fix-pair shape make a conversation that adds a fix pair. */
  lemma AddsFixPairIntro(before: seq<Message>, added: seq<Message>)
    requires |added| > 0 ==>
               |added| == 2 && added[0] == Message("system", FixRequest) && added[1].role == "user" &&
               StartsWith(added[1].content, FeedbackOpening)
    ensures before + added == before || AddsFixPair(before, before + added)
  {
    if |added| > 0 {
      assert (before + added)[..|before|] == before;
    }
  }

  /** Messages after the two seeds: pairs of a fix request and a user message that
      opens with the compile analysis. */
  predicate FixPairs(ms: seq<Message>) {
    |ms| % 2 == 0 &&
    forall k :: 0 <= k < |ms| / 2 ==>
      ms[2 * k] == Message("system", FixRequest) && ms[2 * k + 1].role == "user" &&
      StartsWith(ms[2 * k + 1].content, FeedbackOpening)
  }

  lemma FixPairsSnoc(ms: seq<Message>, a: Message, b: Message)
    requires FixPairs(ms)
    requires a == Message("system", FixRequest) && b.role == "user" && StartsWith(b.content, FeedbackOpening)
    ensures FixPairs(ms + [a, b])
  {
    var ms' := ms + [a, b];
    forall k | 0 <= k < |ms'| / 2
      ensures ms'[2 * k] == Message("system", FixRequest) && ms'[2 * k + 1].role == "user" &&
              StartsWith(ms'[2 * k + 1].content, FeedbackOpening)
    {
      if k < |ms| / 2 {
        assert ms'[2 * k] == ms[2 * k] && ms'[2 * k + 1] == ms[2 * k + 1];
      } else {
        assert 2 * k == |ms|;
      }
    }
  }

  /** A pass keeps the conversation's shape: the two seed messages, then fix pairs. */
  lemma FixPairsStep(before: seq<Message>, after: seq<Message>, seeds: seq<Message>)
    requires |before| >= 2 && before[..2] == seeds && FixPairs(before[2..])
    requires after == before || AddsFixPair(before, after)
    ensures |after| >= 2 && after[..2] == seeds && FixPairs(after[2..])
  {
    if after != before {
      var n := |before|;
      assert after == before + [after[n], after[n + 1]];
      FixPairsSnoc(before[2..], after[n], after[n + 1]);
      assert after[2..] == before[2..] + [after[n], after[n + 1]];
    }
  }

  /** One pass of the loop: the best and the conversation it started with, whether it
      resubmitted the best, the design it compiled, and the best and conversation it
      left. */
  datatype Attempt = Attempt(bestBefore: Count, bestCodeBefore: Option<string>, messagesBefore: seq<Message>,
                             reused: bool, submitted: Option<string>,
                             bestAfter: Count, bestCodeAfter: Option<string>, messagesAfter: seq<Message>)

  datatype MainResult = MainResult(success: bool, iterationsCompleted: nat, bestMismatches: Count,
                                   bestCode: Option<string>)

  /** What one pass guarantees: the best count never rises, the best code changes
      only together with the count and then to the design just submitted, and a
      reusable best is resubmitted. */
  predicate AttemptOk(a: Attempt) {
    (a.bestAfter == a.bestBefore || a.bestAfter.Less(a.bestBefore)) &&
    (a.bestAfter == a.bestBefore ==> a.bestCodeAfter == a.bestCodeBefore) &&
    (a.bestAfter != a.bestBefore ==> a.submitted.Some? && a.bestCodeAfter == a.submitted) &&
    (a.reused <==> Reuses(a.bestBefore, a.bestCodeBefore)) &&
    (a.reused ==> a.submitted == a.bestCodeBefore)
  }

  /** The history the loop leaves, ending in the state `(best, bestCode)`: the first
      pass starts with no best, and each later one starts where the one before ended. */
  predicate Chained(attempts: seq<Attempt>, best: Count, bestCode: Option<string>) {
    (|attempts| == 0 ==> best == Infinite && bestCode == None) &&
    (|attempts| > 0 ==>
       attempts[0].bestBefore == Infinite && attempts[0].bestCodeBefore == None &&
       attempts[|attempts| - 1].bestAfter == best && attempts[|attempts| - 1].bestCodeAfter == bestCode) &&
    (forall k :: 0 <= k < |attempts| - 1 ==>
       attempts[k + 1].bestBefore == attempts[k].bestAfter &&
       attempts[k + 1].bestCodeBefore == attempts[k].bestCodeAfter) &&
    (forall k :: 0 <= k < |attempts| ==> AttemptOk(attempts[k]))
  }

  lemma ChainedSnoc(attempts: seq<Attempt>, best: Count, bestCode: Option<string>, a: Attempt)
    requires Chained(attempts, best, bestCode)
    requires a.bestBefore == best && a.bestCodeBefore == bestCode && AttemptOk(a)
    ensures Chained(attempts + [a], a.bestAfter, a.bestCodeAfter)
  {
    var s := attempts + [a];
    forall k | 0 <= k < |s| - 1
      ensures s[k + 1].bestBefore == s[k].bestAfter && s[k + 1].bestCodeBefore == s[k].bestCodeAfter
    {
      if k + 1 < |attempts| {
        assert s[k] == attempts[k] && s[k + 1] == attempts[k + 1];
      } else {
        assert s[k] == attempts[|attempts| - 1];
      }
    }
    forall k | 0 <= k < |s|
      ensures AttemptOk(s[k])
    {
      if k < |attempts| {
        assert s[k] == attempts[k];
      }
    }
  }

  /** Pass number `k` with `tools`: its design is the one `DesignFor` picks for the
      conversation it started with, and its best and conversation after are what
      `PassAfter` says that design leaves. */
  predicate AttemptAt(a: Attempt, k: nat, interface: Option<string>, tools: MainTools) {
    a.submitted == DesignFor(a.messagesBefore, interface, tools, a.bestBefore, a.bestCodeBefore) &&
    var e := PassAfter(k, a.submitted, tools, a.bestBefore, a.bestCodeBefore);
    a.bestAfter == e.best && a.bestCodeAfter == e.bestCode && a.messagesAfter == a.messagesBefore + e.added
  }

  /** The passes of a run with `tools` that started from the conversation `seeds` and
      ended with `messages`: each pass is pass number `k` and starts with the
      conversation the pass before left. */
  predicate Driven(attempts: seq<Attempt>, seeds: seq<Message>, messages: seq<Message>,
                   interface: Option<string>, tools: MainTools) {
    (|attempts| == 0 ==> messages == seeds) &&
    (|attempts| > 0 ==>
       attempts[0].messagesBefore == seeds && attempts[|attempts| - 1].messagesAfter == messages) &&
    PassesLink(attempts) &&
    (forall k :: 0 <= k < |attempts| ==> AttemptAt(attempts[k], k, interface, tools))
  }

  lemma DrivenSnoc(attempts: seq<Attempt>, seeds: seq<Message>, messages: seq<Message>,
                   interface: Option<string>, tools: MainTools, a: Attempt)
    requires Driven(attempts, seeds, messages, interface, tools)
    requires a.messagesBefore == messages && AttemptAt(a, |attempts|, interface, tools)
    ensures Driven(attempts + [a], seeds, a.messagesAfter, interface, tools)
  {
    PassesLinkSnoc(attempts, a);
    PassesAtSnoc(attempts, interface, tools, a);
  }

  /** Each pass starts with the conversation the pass before left. */
  predicate PassesLink(attempts: seq<Attempt>) {
    forall k :: 0 <= k < |attempts| - 1 ==> attempts[k + 1].messagesBefore == attempts[k].messagesAfter
  }

  lemma PassesLinkSnoc(attempts: seq<Attempt>, a: Attempt)
    requires PassesLink(attempts)
    requires |attempts| > 0 ==> a.messagesBefore == attempts[|attempts| - 1].messagesAfter
    ensures PassesLink(attempts + [a])
  {
    var s := attempts + [a];
    forall k | 0 <= k < |s| - 1
      ensures s[k + 1].messagesBefore == s[k].messagesAfter
    {
      if k + 1 < |attempts| {
        assert s[k] == attempts[k] && s[k + 1] == attempts[k + 1];
      } else {
        assert s[k] == attempts[|attempts| - 1];
      }
    }
  }

  lemma PassesAtSnoc(attempts: seq<Attempt>, interface: Option<string>, tools: MainTools, a: Attempt)
    requires forall k :: 0 <= k < |attempts| ==> AttemptAt(attempts[k], k, interface, tools)
    requires AttemptAt(a, |attempts|, interface, tools)
    ensures forall k :: 0 <= k < |attempts + [a]| ==> AttemptAt((attempts + [a])[k], k, interface, tools)
  {
    var s := attempts + [a];
    forall k | 0 <= k < |s|
      ensures AttemptAt(s[k], k, interface, tools)
    {
      if k < |attempts| {
        AttemptAtSame(attempts[k], s[k], k, interface, tools);
      } else {
        AttemptAtSame(a, s[k], k, interface, tools);
      }
    }
  }

  lemma AttemptAtSame(x: Attempt, y: Attempt, k: nat, interface: Option<string>, tools: MainTools)
    requires x == y && AttemptAt(x, k, interface, tools)
    ensures AttemptAt(y, k, interface, tools)
  {
  }

  /** A pass that follows the tools keeps what every pass guarantees. */
  lemma AttemptAtOk(a: Attempt, k: nat, interface: Option<string>, tools: MainTools)
    requires AttemptAt(a, k, interface, tools) && a.reused == Reuses(a.bestBefore, a.bestCodeBefore)
    ensures AttemptOk(a)
  {
    PassNeverWorsens(k, a.submitted, tools, a.bestBefore, a.bestCodeBefore);
  }

  /** The state of `main` after the passes `attempts`, from the conversation `seeds`:
      the best code exists exactly when the best count is finite, the passes are
      chained and follow the tools, and the conversation is the seeds followed by fix
      pairs. */
  predicate RunSoFar(attempts: seq<Attempt>, best: Count, bestCode: Option<string>, seeds: seq<Message>,
                     messages: seq<Message>, interface: Option<string>, tools: MainTools) {
    (bestCode.Some? <==> best.Finite?) &&
    Chained(attempts, best, bestCode) && Driven(attempts, seeds, messages, interface, tools) &&
    |messages| >= 2 && messages[..2] == seeds && FixPairs(messages[2..])
  }

  /** Appending the next pass, as the tools make it, keeps the state of the run. */
  lemma RunStep(attempts: seq<Attempt>, best: Count, bestCode: Option<string>, seeds: seq<Message>,
                interface: Option<string>, tools: MainTools, a: Attempt)
    requires RunSoFar(attempts, best, bestCode, seeds, a.messagesBefore, interface, tools)
    requires a.bestBefore == best && a.bestCodeBefore == bestCode && a.reused == Reuses(best, bestCode)
    requires AttemptAt(a, |attempts|, interface, tools)
    ensures RunSoFar(attempts + [a], a.bestAfter, a.bestCodeAfter, seeds, a.messagesAfter, interface, tools)
  {
    AttemptAtOk(a, |attempts|, interface, tools);
    ChainedSnoc(attempts, best, bestCode, a);
    DrivenSnoc(attempts, seeds, a.messagesBefore, interface, tools, a);
    PassAddsFixPair(|attempts|, a.submitted, tools, best, bestCode);
    AddsFixPairIntro(a.messagesBefore, PassAfter(|attempts|, a.submitted, tools, best, bestCode).added);
    FixPairsStep(a.messagesBefore, a.messagesAfter, seeds);
  }

  /** A finite best `count` with code `code` after pass `j` is the count `main`
      settled on for the simulation, in some pass up to `j`, of exactly that code. */
  lemma {:induction false} BestFromSimulation(attempts: seq<Attempt>, best: Count, bestCode: Option<string>,
                                              interface: Option<string>, tools: MainTools, j: nat,
                                              count: Count, code: Option<string>)
    requires Chained(attempts, best, bestCode)
    requires forall k :: 0 <= k < |attempts| ==> AttemptAt(attempts[k], k, interface, tools)
    requires j < |attempts| && attempts[j].bestAfter == count && attempts[j].bestCodeAfter == code
    requires count.Finite?
    ensures code.Some?
    ensures exists k :: 0 <= k <= j && tools.simulate(k, code.value).Some? &&
                        MainCount(tools.simulate(k, code.value).value.2) == count
    decreases j
  {
    var a := attempts[j];
    assert AttemptAt(a, j, interface, tools);
    PassNeverWorsens(j, a.submitted, tools, a.bestBefore, a.bestCodeBefore);
    if a.bestAfter != a.bestBefore {
      PassImprovesBySimulation(j, a.submitted, tools, a.bestBefore, a.bestCodeBefore);
      assert a.bestCodeAfter == a.submitted;
    } else {
      assert j > 0;
      assert attempts[j].bestBefore == attempts[j - 1].bestAfter;
      BestFromSimulation(attempts, best, bestCode, interface, tools, j - 1, count, code);
    }
  }

  /** `main` from the conversation set-up to the end of the loop: the system
      instructions and the prompt seed the conversation, then each iteration
      resubmits the best design or asks for a new one, and the loop stops at the
      first design with no mismatches. */
  method MainRun(iterations: int, instructions: string, prompt: string, interface: Option<string>, tools: MainTools)
      returns (r: MainResult, conversation: Conversation, ghost attempts: seq<Attempt>)
    ensures fresh(conversation)
    ensures r.success <==> r.bestMismatches == Finite(0)
    ensures r.success ==> 1 <= r.iterationsCompleted <= iterations
    ensures !r.success ==> r.iterationsCompleted == Max0(iterations)
    ensures |attempts| == r.iterationsCompleted
    ensures r.bestCode.Some? <==> r.bestMismatches.Finite?
    ensures Chained(attempts, r.bestMismatches, r.bestCode)
    ensures Driven(attempts, [Message("system", instructions), Message("user", prompt)], conversation.messages,
                   interface, tools)
    ensures forall k :: 0 <= k < |attempts| - 1 ==> attempts[k].bestAfter != Finite(0)
    ensures |conversation.messages| >= 2 &&
            conversation.messages[..2] == [Message("system", instructions), Message("user", prompt)] &&
            FixPairs(conversation.messages[2..])
  {
    conversation := new Conversation();
    conversation.AddMessage("system", instructions);
    conversation.AddMessage("user", prompt);
    var success := false;
    var iterationCompleted := 0;
    var bestCode: Option<string> := None;
    var bestMismatches := Infinite;
    attempts := [];
    var iteration := 0;
    assert conversation.messages[2..] == [];
    while iteration < iterations
      invariant 0 <= iteration == iterationCompleted == |attempts| && !success
      invariant iteration <= Max0(iterations)
      invariant bestMismatches != Finite(0)
      invariant RunSoFar(attempts, bestMismatches, bestCode, [Message("system", instructions), Message("user", prompt)],
                         conversation.messages, interface, tools)
      invariant forall k :: 0 <= k < |attempts| ==> attempts[k].bestAfter != Finite(0)
    {
      iterationCompleted := iteration + 1;
      ghost var before := conversation.messages;
      var stop, newBest, newBestCode, submitted :=
        MainIteration(iteration, conversation, interface, tools, bestMismatches, bestCode);
      ghost var attempt := Attempt(bestMismatches, bestCode, before, Reuses(bestMismatches, bestCode), submitted,
                                   newBest, newBestCode, conversation.messages);
      RunStep(attempts, bestMismatches, bestCode, [Message("system", instructions), Message("user", prompt)],
              interface, tools, attempt);
      attempts := attempts + [attempt];
      bestMismatches, bestCode := newBest, newBestCode;
      if stop {
        success := true;
        break;
      }
      iteration := iteration + 1;
    }
    r := MainResult(success, iterationCompleted, bestMismatches, bestCode);
  }

  /** Once a pass resubmits the best design, every later pass does too: the loop
      never asks the model again. */
  lemma {:induction false} ReuseIsPermanent(attempts: seq<Attempt>, best: Count, bestCode: Option<string>, k: nat, j: nat)
    requires Chained(attempts, best, bestCode)
    requires k <= j < |attempts| && attempts[k].reused
    ensures attempts[j].reused
    decreases j - k
  {
    if k < j {
      var a := attempts[k];
      assert a.bestAfter.Finite?;
      assert Reuses(attempts[k + 1].bestBefore, attempts[k + 1].bestCodeBefore);
      ReuseIsPermanent(attempts, best, bestCode, k + 1, j);
    }
  }
}
