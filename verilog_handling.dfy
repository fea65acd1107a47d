/** Text handling and outcome analysis of `autochip_scripts/verilog_handling.py`:
    cleaning model output, re-indenting it, the fragment-wrapping rule of the module
    finder, scanning compiler and simulator text, and choosing the scheduled model. */
module VerilogHandling {
  import opened Common
  import opened TextUtil
  import opened ConfigHandler

  // ---------------------------------------------------------------------------
  // clean_generated_verilog
  // ---------------------------------------------------------------------------

  /** `re.sub(r'```verilog|```', '', s)`: the alternatives are tried in that order at
      each position, and scanning resumes after a removed fence. */
  function RemoveFences(s: string): (r: string)
    ensures |r| <= |s|
  {
    if |s| == 0 then ""
    else if StartsWith(s, "```verilog") then RemoveFences(s[10..])
    else if StartsWith(s, "```") then RemoveFences(s[3..])
    else [s[0]] + RemoveFences(s[1..])
  }

  /** Index of the first `:` at or after `i` on the current line, or -1 when a
      newline or the end of the text comes first (the lazy `.*?:`). */
  function ColonOnLine(s: string, i: nat): (r: int)
    ensures r == -1 || (i <= r < |s| && s[r] == ':')
    decreases |s| - i
  {
    if i >= |s| then -1
    else if s[i] == ':' then i
    else if s[i] == '\n' then -1
    else ColonOnLine(s, i + 1)
  }

  /** Length of a match of `lead .*?:\s*` at the start of `s`, or 0 for no match. */
  function PreambleMatch(s: string, lead: string): (k: nat)
    ensures k <= |s|
    ensures k > 0 ==> k > |lead|
  {
    if !StartsWith(s, lead) then 0
    else
      var c := ColonOnLine(s, |lead|);
      if c < 0 then 0 else c + 1 + SpaceRun(s, c + 1)
  }

  /** `re.sub(lead + r".*?:\s*", '', s)` for `lead` "Here's " or "Here is ". */
  function RemovePreamble(s: string, lead: string): (r: string)
    ensures |r| <= |s|
  {
    if |s| == 0 then ""
    else
      var k := PreambleMatch(s, lead);
      if k > 0 then RemovePreamble(s[k..], lead) else [s[0]] + RemovePreamble(s[1..], lead)
  }

  /** Last index in `[lo, hi)` holding a newline, or -1. */
  function LastNewline(s: string, lo: nat, hi: nat): (r: int)
    requires lo <= hi <= |s|
    ensures r == -1 || (lo <= r < hi && s[r] == '\n')
    decreases hi - lo
  {
    if hi == lo then -1
    else if s[hi - 1] == '\n' then hi - 1
    else LastNewline(s, lo, hi - 1)
  }

  /** Length of a match of `\n\s*\n` at the start of `s` (the greedy `\s*` backs off to
      the last newline of the whitespace run), or 0 for no match. */
  function BlankRunMatch(s: string): (k: nat)
    ensures k == 0 || 2 <= k <= |s|
  {
    if |s| == 0 || s[0] != '\n' then 0
    else
      var e := 1 + SpaceRun(s, 1);
      var j := LastNewline(s, 1, e);
      if j < 0 then 0 else j + 1
  }

  /** `re.sub(r'\n\s*\n', '\n\n', s)`. */
  function CollapseBlankLines(s: string): (r: string)
    ensures |r| <= |s|
  {
    if |s| == 0 then ""
    else
      var k := BlankRunMatch(s);
      if k > 0 then "\n\n" + CollapseBlankLines(s[k..]) else [s[0]] + CollapseBlankLines(s[1..])
  }

  /** `clean_generated_verilog`: drop code fences and "Here's ...:" / "Here is ...:"
      preambles, squeeze runs of blank lines into one, and strip. */
  function CleanGeneratedVerilog(code: string): (r: string)
    ensures IsStripped(r)
    ensures |r| <= |code|
  {
    var t := CollapseBlankLines(RemovePreamble(RemovePreamble(RemoveFences(code), "Here's "), "Here is "));
    StripFacts(t);
    Strip(t)
  }

  /** Without a backquote, the fence substitution finds nothing to remove. */
  lemma {:induction false} RemoveFencesPlain(s: string)
    requires '`' !in s
    ensures RemoveFences(s) == s
    decreases |s|
  {
    if |s| > 0 {
      assert s[0] in s;
      assert !StartsWith(s, "```verilog") && !StartsWith(s, "```");
      RemoveFencesPlain(s[1..]);
      assert [s[0]] + s[1..] == s;
    }
  }

  /** Without an occurrence of `lead`, the preamble substitution finds nothing to remove. */
  lemma {:induction false} RemovePreamblePlain(s: string, lead: string)
    requires !Contains(s, lead)
    ensures RemovePreamble(s, lead) == s
    decreases |s|
  {
    if |s| > 0 {
      RemovePreamblePlain(s[1..], lead);
      assert [s[0]] + s[1..] == s;
    }
  }

  /** Where `\n\s*\n` matches at no index, the substitution leaves the text as it is. */
  lemma {:induction false} CollapseBlankLinesPlain(s: string)
    requires forall i :: 0 <= i <= |s| ==> BlankRunMatch(s[i..]) == 0
    ensures CollapseBlankLines(s) == s
    decreases |s|
  {
    if |s| > 0 {
      assert BlankRunMatch(s[0..]) == 0 && s[0..] == s;
      forall i | 0 <= i <= |s[1..]|
        ensures BlankRunMatch(s[1..][i..]) == 0
      {
        assert s[1..][i..] == s[i + 1..];
      }
      CollapseBlankLinesPlain(s[1..]);
      assert [s[0]] + s[1..] == s;
    }
  }

  /** Model output with no code fence, no "Here's " or "Here is " preamble and no run
      of blank lines is only stripped by the cleaner. */
  lemma CleanPlainText(code: string)
    requires '`' !in code && !Contains(code, "Here's ") && !Contains(code, "Here is ")
    requires forall i :: 0 <= i <= |code| ==> BlankRunMatch(code[i..]) == 0
    ensures CleanGeneratedVerilog(code) == Strip(code)
  {
    RemoveFencesPlain(code);
    RemovePreamblePlain(code, "Here's ");
    RemovePreamblePlain(code, "Here is ");
    CollapseBlankLinesPlain(code);
  }

  // ---------------------------------------------------------------------------
  // sanitize_verilog_code
  // ---------------------------------------------------------------------------

  const TimescaleDirective := "`timescale 1ns / 1ps"

  /** The cleaned code, with the timescale directive put in front when it does not
      already start with one. */
  function PreparedCode(code: string): string {
    var c := CleanGeneratedVerilog(code);
    if StartsWith(Strip(c), "`timescale") then c else TimescaleDirective + "\n\n" + c
  }

  /** A line holding `end`, `endmodule` or `endcase` closes a level before it is printed. */
  predicate Closes(line: string) {
    Contains(line, "end") || Contains(line, "endmodule") || Contains(line, "endcase")
  }

  /** A line holding `begin`, `case` or `module` opens a level after it is printed. */
  predicate Opens(line: string) {
    Contains(line, "begin") || Contains(line, "case") || Contains(line, "module")
  }

  function Indent(level: nat): (r: string)
    ensures |r| == 4 * level
    ensures forall i :: 0 <= i < |r| ==> r[i] == ' '
  {
    seq(4 * level, _ => ' ')
  }

  /** The level a non-blank stripped line is printed at. */
  function LineLevel(line: string, level: nat): nat {
    if Closes(line) then Max0(level - 1) else level
  }

  /** The level after a non-blank stripped line. */
  function NextLevel(line: string, level: nat): nat {
    if Opens(line) then LineLevel(line, level) + 1 else LineLevel(line, level)
  }

  /** What the indentation loop emits for `lines` when entered at `level`. */
  function IndentedLines(lines: seq<string>, level: nat): seq<string> {
    if |lines| == 0 then []
    else
      var l := Strip(lines[0]);
      if l == "" then IndentedLines(lines[1..], level)
      else [Indent(LineLevel(l, level)) + l] + IndentedLines(lines[1..], NextLevel(l, level))
  }

  /** One step of `IndentedLines`. */
  lemma IndentStep(rest: seq<string>, level: nat)
    requires |rest| > 0
    ensures var l := Strip(rest[0]);
      IndentedLines(rest, level) ==
        if l == "" then IndentedLines(rest[1..], level)
        else [Indent(LineLevel(l, level)) + l] + IndentedLines(rest[1..], NextLevel(l, level))
  {
  }

  /** One turn of the re-indenting loop: the lines emitted so far followed by what the
      rest of the input emits stay the same when line `i` is consumed. */
  lemma SanitizeStep(input: seq<string>, i: nat, level: nat, lines: seq<string>)
    requires i < |input|
    ensures var line := Strip(input[i]);
      var rest := IndentedLines(input[i + 1..], if line == "" then level else NextLevel(line, level));
      lines + IndentedLines(input[i..], level) ==
        (if line == "" then lines else lines + [Indent(LineLevel(line, level)) + line]) + rest
  {
    IndentStep(input[i..], level);
    assert input[i..][1..] == input[i + 1..];
  }

  /** `sanitize_verilog_code`: re-indents the non-blank lines of the prepared code. */
  method SanitizeVerilogCode(code: string) returns (r: string)
    ensures r == Join("\n", IndentedLines(Split(PreparedCode(code)), 0))
  {
    var input := Split(PreparedCode(code));
    var lines: seq<string> := [];
    var indentLevel: nat := 0;
    var i := 0;
    assert input[i..] == input;
    while i < |input|
      invariant 0 <= i <= |input|
      invariant lines + IndentedLines(input[i..], indentLevel) == IndentedLines(input, 0)
    {
      var line := Strip(input[i]);
      ghost var level0 := indentLevel;
      SanitizeStep(input, i, indentLevel, lines);
      if line != "" {
        if Closes(line) {
          indentLevel := Max0(indentLevel - 1);
        }
        assert indentLevel == LineLevel(line, level0);
        lines := lines + [Indent(indentLevel) + line];
        if Opens(line) {
          indentLevel := indentLevel + 1;
        }
        assert indentLevel == NextLevel(line, level0);
      }
      i := i + 1;
    }
    assert IndentedLines(input[i..], indentLevel) == [];
    assert lines + [] == lines;
    r := Join("\n", lines);
  }

  /** `o` is one of the non-blank stripped `lines` behind some indentation. */
  ghost predicate IndentedCopy(o: string, lines: seq<string>) {
    exists j, lv: nat :: 0 <= j < |lines| && Strip(lines[j]) != "" && o == Indent(lv) + Strip(lines[j])
  }

  predicate EndsInNonSpace(o: string) {
    |o| > 0 && !IsSpace(o[|o| - 1])
  }

  lemma IndentedCopyTail(o: string, lines: seq<string>)
    requires |lines| > 0 && IndentedCopy(o, lines[1..])
    ensures IndentedCopy(o, lines)
  {
    var j, lv: nat :| 0 <= j < |lines[1..]| && Strip(lines[1..][j]) != "" && o == Indent(lv) + Strip(lines[1..][j]);
    assert lines[1..][j] == lines[j + 1];
  }

  /** The line emitted for the first input line, when that line is not blank. */
  lemma IndentedHead(lines: seq<string>, level: nat)
    requires |lines| > 0 && Strip(lines[0]) != ""
    ensures var o := Indent(LineLevel(Strip(lines[0]), level)) + Strip(lines[0]);
      IndentedCopy(o, lines) && EndsInNonSpace(o)
  {
    var l := Strip(lines[0]);
    StripFacts(lines[0]);
    var o := Indent(LineLevel(l, level)) + l;
    assert o[|o| - 1] == l[|l| - 1];
  }

  /** Every emitted line is a non-blank stripped input line behind `4*k` spaces. */
  lemma {:induction false} IndentedLinesShape(lines: seq<string>, level: nat)
    ensures |IndentedLines(lines, level)| <= |lines|
    ensures forall k :: 0 <= k < |IndentedLines(lines, level)| ==>
              IndentedCopy(IndentedLines(lines, level)[k], lines) &&
              EndsInNonSpace(IndentedLines(lines, level)[k])
    decreases |lines|
  {
    if |lines| > 0 {
      var l := Strip(lines[0]);
      var next := if l == "" then level else NextLevel(l, level);
      IndentedLinesShape(lines[1..], next);
      var rest := IndentedLines(lines[1..], next);
      var front := if l == "" then [] else [Indent(LineLevel(l, level)) + l];
      var out := IndentedLines(lines, level);
      IndentStep(lines, level);
      assert out == front + rest;
      if l != "" {
        IndentedHead(lines, level);
      }
      forall k | 0 <= k < |out|
        ensures IndentedCopy(out[k], lines) && EndsInNonSpace(out[k])
      {
        if k >= |front| {
          assert out[k] == rest[k - |front|];
          IndentedCopyTail(out[k], lines);
        }
      }
    }
  }

  lemma RStripKeepsPrefix(s: string, p: string)
    requires StartsWith(s, p) && |p| > 0 && !IsSpace(p[|p| - 1])
    ensures StartsWith(RStrip(s), p)
  {
    assert RStrip(s)[..|p|] == s[..|p|];
  }

  /** The first sanitized line is the timescale directive (at indentation 0). */
  lemma SanitizedStartsWithTimescale(code: string)
    ensures |IndentedLines(Split(PreparedCode(code)), 0)| > 0
    ensures StartsWith(IndentedLines(Split(PreparedCode(code)), 0)[0], "`timescale")
  {
    var c := CleanGeneratedVerilog(code);
    var p := PreparedCode(code);
    var ts := "`timescale";
    StripFacts(c);
    if StartsWith(Strip(c), ts) {
      assert StartsWith(p, ts);
    } else {
      assert p[..|ts|] == ts;
    }
    SplitFirstPrefix(p, ts);
    var first := Split(p)[0];
    assert LStrip(first) == first;
    RStripKeepsPrefix(first, ts);
    assert StartsWith(Strip(first), ts);
    assert Indent(0) == "";
    assert IndentedLines(Split(p), 0)[0] == Indent(0) + Strip(first);
  }

  // ---------------------------------------------------------------------------
  // find_verilog_modules
  // ---------------------------------------------------------------------------

  /** The fixed header the finder prepends to a bare fragment. */
  const TopModuleHeader :=
    "\nmodule top_module(\n   input [2:0] vec, \n   output [2:0] outv,\n   output o2,\n   output o1,\n   output o0\n);\n"

  /** `re.search(r'module\s+', s, re.IGNORECASE)` finds a match at `i`. */
  predicate ModuleKeywordAt(s: string, i: int) {
    0 <= i && i + 7 <= |s| && Lower(s[i..i + 6]) == "module" && IsSpace(s[i + 6])
  }

  predicate HasModuleKeyword(s: string) {
    exists i :: 0 <= i <= |s| && ModuleKeywordAt(s, i)
  }

  /** Text with no `module` keyword but an `assign` or `always` is a bare module body. */
  predicate IsBareFragment(s: string) {
    !HasModuleKeyword(s) && (Contains(s, "assign") || Contains(s, "always"))
  }

  /** The wrapping step of `find_verilog_modules`. */
  function WrapFragment(cleaned: string): string {
    if IsBareFragment(cleaned) then Wrapped(TopModuleHeader, cleaned) else cleaned
  }

  /** Wrapping a text in a non-empty header, with `endmodule` appended unless present. */
  function Wrapped(h: string, c: string): string {
    var t := h + c;
    if !Contains(t, "endmodule") then t + "\nendmodule" else t
  }

  lemma WrappedShape(h: string, c: string)
    requires |h| > 0
    ensures var w := Wrapped(h, c);
      w != c && StartsWith(w, h) && w[|h|..|h| + |c|] == c && Contains(w, "endmodule")
  {
    var t := h + c;
    var w := Wrapped(h, c);
    if !Contains(t, "endmodule") {
      ContainsSuffix(t + "\n", "endmodule");
      assert t + "\n" + "endmodule" == w;
    }
    assert w[..|h|] == h;
    assert w[|h|..|h| + |c|] == c;
  }

  /** The fragment rule: only a bare fragment is changed, and it then gets the fixed
      header in front, keeps its text, and holds an `endmodule`. */
  lemma WrapFragmentRule(cleaned: string)
    ensures WrapFragment(cleaned) != cleaned <==> IsBareFragment(cleaned)
    ensures IsBareFragment(cleaned) ==>
              StartsWith(WrapFragment(cleaned), TopModuleHeader) &&
              WrapFragment(cleaned)[|TopModuleHeader|..|TopModuleHeader| + |cleaned|] == cleaned &&
              Contains(WrapFragment(cleaned), "endmodule")
  {
    if IsBareFragment(cleaned) {
      WrappedShape(TopModuleHeader, cleaned);
    }
  }

  /** The two module-finding regular expressions (`re.findall` with the first
      pattern, the second one when the first finds nothing) are not modelled; any
      function from the text to its list of raw matches stands for them. */
  type ModuleScan = string -> seq<string>

  function StripAll(ms: seq<string>): (r: seq<string>)
    ensures |r| == |ms|
    ensures forall k :: 0 <= k < |ms| ==> r[k] == Strip(ms[k])
  {
    seq(|ms|, k requires 0 <= k < |ms| => Strip(ms[k]))
  }

  /** The raw matches `find_verilog_modules` takes from the cleaned (and, for a bare
      fragment, wrapped) text. */
  function ModuleMatches(text: string, scan: ModuleScan): seq<string> {
    scan(WrapFragment(CleanGeneratedVerilog(text)))
  }

  /** `find_verilog_modules`: the matches, each stripped. */
  function FindVerilogModules(text: string, scan: ModuleScan): (r: seq<string>)
    ensures |r| == |ModuleMatches(text, scan)|
  {
    StripAll(ModuleMatches(text, scan))
  }

  /** Each block found is its match with the surrounding white space cut off: a
      stripped piece of the match, and the match itself when that was stripped. */
  lemma FoundBlocks(text: string, scan: ModuleScan, k: int)
    requires 0 <= k < |FindVerilogModules(text, scan)|
    ensures IsStripped(FindVerilogModules(text, scan)[k])
    ensures Contains(ModuleMatches(text, scan)[k], FindVerilogModules(text, scan)[k])
    ensures IsStripped(ModuleMatches(text, scan)[k]) ==>
              FindVerilogModules(text, scan)[k] == ModuleMatches(text, scan)[k]
  {
    var m := ModuleMatches(text, scan)[k];
    StripFacts(m);
    assert OccursAt(m, Strip(m), |m| - |LStrip(m)|);
    ContainsOccurs(m, Strip(m));
  }

  // ---------------------------------------------------------------------------
  // analyze_compilation_errors
  // ---------------------------------------------------------------------------

  /** The one category a compiler line falls into; the tests are tried in order. */
  datatype LineIssue =
    | MissingEndmodule
    | UndefinedMacro(name: string)
    | MacroNameMissing
    | SyntaxError
    | TimingIssue
    | NoIssue

  /** The `issues` dictionary. */
  datatype CompileIssues = CompileIssues(
    missingEndmodule: bool,
    undefinedMacros: set<string>,
    syntaxErrors: seq<string>,
    timingIssues: bool,
    macroNameErrors: bool)

  const NoIssues := CompileIssues(false, {}, [], false, false)

  /** `line.split("Macro")[1].split("is not defined")[0].strip()`. */
  function MacroName(line: string): string {
    Strip(Before(Before(After(line, "Macro"), "Macro"), "is not defined"))
  }

  function ClassifyCompileLine(line: string): LineIssue {
    if Contains(line, "module/macromodule...endmodule pair(s) mismatch") then MissingEndmodule
    else if Contains(line, "Macro") && Contains(line, "is not defined") then UndefinedMacro(MacroName(line))
    else if Contains(line, "Name of macro is not specified") then MacroNameMissing
    else if Contains(line, "Syntax error") then SyntaxError
    else if Contains(line, "timescale") then TimingIssue
    else NoIssue
  }

  function Record(acc: CompileIssues, issue: LineIssue, line: string): CompileIssues {
    match issue
    case MissingEndmodule => acc.(missingEndmodule := true)
    case UndefinedMacro(name) => acc.(undefinedMacros := acc.undefinedMacros + {name})
    case MacroNameMissing => acc.(macroNameErrors := true)
    case SyntaxError => acc.(syntaxErrors := acc.syntaxErrors + [line])
    case TimingIssue => acc.(timingIssues := true)
    case NoIssue => acc
  }

  /** The record the loop builds from `lines`, processed first to last. */
  function IssuesOf(lines: seq<string>): CompileIssues {
    if |lines| == 0 then NoIssues
    else
      var last := lines[|lines| - 1];
      Record(IssuesOf(lines[..|lines| - 1]), ClassifyCompileLine(last), last)
  }

  /** The lines classified as syntax errors, in input order. */
  function SyntaxLines(lines: seq<string>): seq<string> {
    if |lines| == 0 then []
    else (if ClassifyCompileLine(lines[0]) == SyntaxError then [lines[0]] else []) + SyntaxLines(lines[1..])
  }

  /** `analyze_compilation_errors`: `None` or empty text gives the default record. */
  method AnalyzeCompilationErrors(compileOutput: Option<string>) returns (issues: CompileIssues)
    ensures compileOutput.None? || compileOutput == Some("") ==> issues == NoIssues
    ensures compileOutput.Some? && compileOutput.value != "" ==>
              issues == IssuesOf(Split(compileOutput.value))
  {
    issues := NoIssues;
    if compileOutput.Some? && compileOutput.value != "" {
      var lines := Split(compileOutput.value);
      var i := 0;
      while i < |lines|
        invariant 0 <= i <= |lines|
        invariant issues == IssuesOf(lines[..i])
      {
        var line := lines[i];
        assert lines[..i + 1][..i] == lines[..i];
        if Contains(line, "module/macromodule...endmodule pair(s) mismatch") {
          issues := issues.(missingEndmodule := true);
        } else if Contains(line, "Macro") && Contains(line, "is not defined") {
          var macroName := Strip(Before(Before(After(line, "Macro"), "Macro"), "is not defined"));
          issues := issues.(undefinedMacros := issues.undefinedMacros + {macroName});
        } else if Contains(line, "Name of macro is not specified") {
          issues := issues.(macroNameErrors := true);
        } else if Contains(line, "Syntax error") {
          issues := issues.(syntaxErrors := issues.syntaxErrors + [line]);
        } else if Contains(line, "timescale") {
          issues := issues.(timingIssues := true);
        }
        i := i + 1;
      }
      assert lines[..i] == lines;
    }
  }

  /** Each flag is set by its own kind of line and stays set. */
  lemma RecordFlags(acc: CompileIssues, issue: LineIssue, line: string)
    ensures Record(acc, issue, line).missingEndmodule <==> acc.missingEndmodule || issue == MissingEndmodule
    ensures Record(acc, issue, line).macroNameErrors <==> acc.macroNameErrors || issue == MacroNameMissing
    ensures Record(acc, issue, line).timingIssues <==> acc.timingIssues || issue == TimingIssue
  {
  }

  /** `missing_endmodule` is set exactly when some line reports an unmatched module/endmodule pair. */
  lemma {:induction false} MissingEndmoduleField(lines: seq<string>)
    ensures IssuesOf(lines).missingEndmodule <==>
              exists k :: 0 <= k < |lines| && ClassifyCompileLine(lines[k]) == MissingEndmodule
    decreases |lines|
  {
    if |lines| > 0 {
      var init := lines[..|lines| - 1];
      var last := lines[|lines| - 1];
      MissingEndmoduleField(init);
      RecordFlags(IssuesOf(init), ClassifyCompileLine(last), last);
      assert forall k :: 0 <= k < |init| ==> init[k] == lines[k];
    }
  }

  /** `macro_name_errors` is set exactly when some line (not caught by an earlier test) reports a macro without a name. */
  lemma {:induction false} MacroNameField(lines: seq<string>)
    ensures IssuesOf(lines).macroNameErrors <==>
              exists k :: 0 <= k < |lines| && ClassifyCompileLine(lines[k]) == MacroNameMissing
    decreases |lines|
  {
    if |lines| > 0 {
      var init := lines[..|lines| - 1];
      var last := lines[|lines| - 1];
      MacroNameField(init);
      RecordFlags(IssuesOf(init), ClassifyCompileLine(last), last);
      assert forall k :: 0 <= k < |init| ==> init[k] == lines[k];
    }
  }

  /** `timing_issues` is set exactly when some line caught by no earlier test mentions `timescale`. */
  lemma {:induction false} TimingField(lines: seq<string>)
    ensures IssuesOf(lines).timingIssues <==>
              exists k :: 0 <= k < |lines| && ClassifyCompileLine(lines[k]) == TimingIssue
    decreases |lines|
  {
    if |lines| > 0 {
      var init := lines[..|lines| - 1];
      var last := lines[|lines| - 1];
      TimingField(init);
      RecordFlags(IssuesOf(init), ClassifyCompileLine(last), last);
      assert forall k :: 0 <= k < |init| ==> init[k] == lines[k];
    }
  }

  lemma RecordMacros(acc: CompileIssues, issue: LineIssue, line: string, m: string)
    ensures m in Record(acc, issue, line).undefinedMacros <==>
              m in acc.undefinedMacros || issue == UndefinedMacro(m)
  {
  }

  /** `undefined_macros` holds exactly the names taken from the undefined-macro lines. */
  lemma {:induction false} UndefinedMacrosField(lines: seq<string>, m: string)
    ensures m in IssuesOf(lines).undefinedMacros <==>
              exists k :: 0 <= k < |lines| && ClassifyCompileLine(lines[k]) == UndefinedMacro(m)
    decreases |lines|
  {
    if |lines| > 0 {
      var init := lines[..|lines| - 1];
      var last := lines[|lines| - 1];
      UndefinedMacrosField(init, m);
      RecordMacros(IssuesOf(init), ClassifyCompileLine(last), last, m);
      assert forall k :: 0 <= k < |init| ==> init[k] == lines[k];
    }
  }

  /** `syntax_errors` lists the syntax-error lines in input order. */
  lemma {:induction false} SyntaxErrorsField(lines: seq<string>)
    ensures IssuesOf(lines).syntaxErrors == SyntaxLines(lines)
    decreases |lines|
  {
    if |lines| > 0 {
      var init := lines[..|lines| - 1];
      SyntaxErrorsField(init);
      SyntaxLinesSnoc(init, lines[|lines| - 1]);
      assert init + [lines[|lines| - 1]] == lines;
    }
  }

  lemma {:induction false} SyntaxLinesSnoc(init: seq<string>, last: string)
    ensures SyntaxLines(init + [last]) ==
              SyntaxLines(init) + (if ClassifyCompileLine(last) == SyntaxError then [last] else [])
    decreases |init|
  {
    if |init| == 0 {
      assert init + [last] == [last];
    } else {
      var h := if ClassifyCompileLine(init[0]) == SyntaxError then [init[0]] else [];
      var t := if ClassifyCompileLine(last) == SyntaxError then [last] else [];
      assert (init + [last])[0] == init[0];
      assert (init + [last])[1..] == init[1..] + [last];
      assert SyntaxLines(init + [last]) == h + SyntaxLines(init[1..] + [last]);
      SyntaxLinesSnoc(init[1..], last);
      AppendAssoc(h, SyntaxLines(init[1..]), t);
    }
  }

  /** A single line contributes to at most one field: the `elif` chain. */
  lemma OneCategoryPerLine(line: string)
    ensures var r := IssuesOf([line]);
      (if r.missingEndmodule then 1 else 0) + (if r.undefinedMacros != {} then 1 else 0) +
      (if r.macroNameErrors then 1 else 0) + (if |r.syntaxErrors| > 0 then 1 else 0) +
      (if r.timingIssues then 1 else 0) <= 1
  {
    assert [line][..0] == [];
  }

  /** The kept syntax-error lines are lines of the input that mention "Syntax error",
      in input order. */
  lemma {:induction false} SyntaxLinesAreSyntaxErrors(lines: seq<string>)
    ensures forall k :: 0 <= k < |SyntaxLines(lines)| ==> Contains(SyntaxLines(lines)[k], "Syntax error")
    ensures |SyntaxLines(lines)| <= |lines|
    ensures forall l :: l in SyntaxLines(lines) ==> l in lines
    decreases |lines|
  {
    if |lines| > 0 {
      SyntaxLinesAreSyntaxErrors(lines[1..]);
    }
  }

  // ---------------------------------------------------------------------------
  // get_iteration_model
  // ---------------------------------------------------------------------------

  function Values(cfg: seq<Entry>): (r: seq<ModelInfo>)
    ensures |r| == |cfg|
    ensures forall k :: 0 <= k < |cfg| ==> r[k] == cfg[k].1
  {
    if |cfg| == 0 then [] else [cfg[0].1] + Values(cfg[1..])
  }

  /** Insert `x` before the first entry it does not start before (ties: `x` first). */
  function InsertDescending(x: ModelInfo, s: seq<ModelInfo>): seq<ModelInfo> {
    if |s| == 0 then [x]
    else if x.startIteration >= s[0].startIteration then [x] + s
    else [s[0]] + InsertDescending(x, s[1..])
  }

  /** `sorted(values, key=start_iteration, reverse=True)`, stable. */
  function SortDescending(s: seq<ModelInfo>): seq<ModelInfo> {
    if |s| == 0 then [] else InsertDescending(s[0], SortDescending(s[1..]))
  }

  predicate Descending(s: seq<ModelInfo>) {
    forall i, j :: 0 <= i < j < |s| ==> s[i].startIteration >= s[j].startIteration
  }

  lemma {:induction false} InsertDescendingMultiset(x: ModelInfo, s: seq<ModelInfo>)
    ensures multiset(InsertDescending(x, s)) == multiset(s) + multiset{x}
    decreases |s|
  {
    if |s| > 0 && x.startIteration < s[0].startIteration {
      InsertDescendingMultiset(x, s[1..]);
      assert s == [s[0]] + s[1..];
    }
  }

  /** The inserted sequence starts with `x` or with the old first entry. */
  lemma InsertDescendingHead(x: ModelInfo, s: seq<ModelInfo>)
    ensures |InsertDescending(x, s)| == |s| + 1
    ensures InsertDescending(x, s)[0] == x || (|s| > 0 && InsertDescending(x, s)[0] == s[0])
  {
  }

  lemma {:induction false} InsertDescendingSorted(x: ModelInfo, s: seq<ModelInfo>)
    requires Descending(s)
    ensures Descending(InsertDescending(x, s))
    decreases |s|
  {
    if |s| > 0 && x.startIteration < s[0].startIteration {
      var t := InsertDescending(x, s[1..]);
      InsertDescendingSorted(x, s[1..]);
      InsertDescendingHead(x, s[1..]);
      assert s[0].startIteration >= t[0].startIteration;
      var u := [s[0]] + t;
      forall i, j | 0 <= i < j < |u|
        ensures u[i].startIteration >= u[j].startIteration
      {
        if i == 0 && j > 1 {
          assert u[j] == t[j - 1];
        }
      }
    }
  }

  lemma {:induction false} SortDescendingSorted(s: seq<ModelInfo>)
    ensures Descending(SortDescending(s))
    decreases |s|
  {
    if |s| > 0 {
      SortDescendingSorted(s[1..]);
      InsertDescendingSorted(s[0], SortDescending(s[1..]));
    }
  }

  lemma {:induction false} SortDescendingMultiset(s: seq<ModelInfo>)
    ensures multiset(SortDescending(s)) == multiset(s)
    decreases |s|
  {
    if |s| > 0 {
      var rest := SortDescending(s[1..]);
      SortDescendingMultiset(s[1..]);
      InsertDescendingMultiset(s[0], rest);
      assert SortDescending(s) == InsertDescending(s[0], rest);
      assert s == [s[0]] + s[1..];
      assert multiset(s) == multiset(s[1..]) + multiset{s[0]};
    }
  }

  /** The sort orders by descending start and keeps the same entries. */
  lemma SortDescendingFacts(s: seq<ModelInfo>)
    ensures Descending(SortDescending(s))
    ensures multiset(SortDescending(s)) == multiset(s)
  {
    SortDescendingSorted(s);
    SortDescendingMultiset(s);
  }

  lemma SortedMembers(values: seq<ModelInfo>)
    ensures Descending(SortDescending(values))
    ensures forall e :: e in SortDescending(values) <==> e in values
  {
    SortDescendingFacts(values);
    assert forall e :: e in SortDescending(values) <==> e in multiset(SortDescending(values));
    assert forall e :: e in values <==> e in multiset(values);
  }

  /** `model_info` is an entry of the schedule whose start is the greatest one not
      above `iteration`. */
  predicate LatestStarted(cfg: seq<Entry>, iteration: int, info: ModelInfo) {
    info.startIteration <= iteration &&
    (exists k :: 0 <= k < |cfg| && cfg[k].1 == info) &&
    forall j :: 0 <= j < |cfg| && cfg[j].1.startIteration <= iteration ==>
      cfg[j].1.startIteration <= info.startIteration
  }

  /** The first entry of the descending order that has started is the latest started. */
  lemma FirstStartedIsLatest(cfg: seq<Entry>, iteration: int, sorted: seq<ModelInfo>, i: int)
    requires sorted == SortDescending(Values(cfg))
    requires 0 <= i < |sorted| && sorted[i].startIteration <= iteration
    requires forall j :: 0 <= j < i ==> sorted[j].startIteration > iteration
    ensures LatestStarted(cfg, iteration, sorted[i])
  {
    var values := Values(cfg);
    SortedMembers(values);
    FirstStartedOf(values, sorted, iteration, i);
    var k :| 0 <= k < |values| && values[k] == sorted[i];
    assert cfg[k].1 == sorted[i];
  }

  /** In a descending order of `values`, the first started entry has the greatest
      start of the started entries of `values`. */
  lemma FirstStartedOf(values: seq<ModelInfo>, sorted: seq<ModelInfo>, iteration: int, i: int)
    requires Descending(sorted) && forall e :: e in sorted <==> e in values
    requires 0 <= i < |sorted| && sorted[i].startIteration <= iteration
    requires forall j :: 0 <= j < i ==> sorted[j].startIteration > iteration
    ensures sorted[i] in values
    ensures forall j :: 0 <= j < |values| && values[j].startIteration <= iteration ==>
              values[j].startIteration <= sorted[i].startIteration
  {
    forall j | 0 <= j < |values| && values[j].startIteration <= iteration
      ensures values[j].startIteration <= sorted[i].startIteration
    {
      assert values[j] in sorted;
      var p :| 0 <= p < |sorted| && sorted[p] == values[j];
      assert p >= i;
    }
  }

  /** When no entry of the descending order has started, no entry of the schedule has. */
  lemma NoneStarted(cfg: seq<Entry>, iteration: int, sorted: seq<ModelInfo>)
    requires sorted == SortDescending(Values(cfg))
    requires forall j :: 0 <= j < |sorted| ==> sorted[j].startIteration > iteration
    ensures forall k :: 0 <= k < |cfg| ==> cfg[k].1.startIteration > iteration
  {
    SortedMembers(Values(cfg));
  }

  /** The first entry of `s` whose start is not after `t`. */
  function FirstStarted(s: seq<ModelInfo>, t: int): (r: Option<ModelInfo>)
    ensures r.Some? ==> r.value in s && r.value.startIteration <= t
    ensures r.None? <==> forall k :: 0 <= k < |s| ==> s[k].startIteration > t
  {
    if |s| == 0 then None
    else if s[0].startIteration <= t then Some(s[0])
    else FirstStarted(s[1..], t)
  }

  /** `x` against the best of the entries after it: `x` when it has started and its
      start is not below theirs, so that an earlier entry wins a tie. */
  function Earlier(x: ModelInfo, rest: Option<ModelInfo>, t: int): Option<ModelInfo> {
    if x.startIteration > t then rest
    else if rest.None? || x.startIteration >= rest.value.startIteration then Some(x)
    else rest
  }

  /** Of the entries of `s` whose start is not after `t`, the first (in the order of
      `s`) of those with the greatest start. */
  function FirstLatest(s: seq<ModelInfo>, t: int): Option<ModelInfo> {
    if |s| == 0 then None else Earlier(s[0], FirstLatest(s[1..], t), t)
  }

  /** `FirstLatest` is what its name says: a started entry whose start no started
      entry exceeds, and no entry before it is started with the same start. */
  lemma {:induction false} FirstLatestIsFirst(s: seq<ModelInfo>, t: int)
    ensures FirstLatest(s, t).None? <==> forall j :: 0 <= j < |s| ==> s[j].startIteration > t
    ensures FirstLatest(s, t).Some? ==>
              exists k :: 0 <= k < |s| && s[k] == FirstLatest(s, t).value && s[k].startIteration <= t &&
                (forall j :: 0 <= j < |s| && s[j].startIteration <= t ==> s[j].startIteration <= s[k].startIteration) &&
                (forall j :: 0 <= j < k ==> s[j].startIteration != s[k].startIteration)
  {
    if |s| > 0 {
      FirstLatestIsFirst(s[1..], t);
      var rest := FirstLatest(s[1..], t);
      var r := FirstLatest(s, t);
      if r == Some(s[0]) {
        assert s[0].startIteration <= t;
        forall j | 0 <= j < |s| && s[j].startIteration <= t
          ensures s[j].startIteration <= s[0].startIteration
        {
          if j > 0 {
            assert s[1..][j - 1] == s[j];
          }
        }
      } else if r.Some? {
        var k :| 0 <= k < |s[1..]| && s[1..][k] == rest.value && s[1..][k].startIteration <= t &&
                 (forall j :: 0 <= j < |s[1..]| && s[1..][j].startIteration <= t ==>
                    s[1..][j].startIteration <= s[1..][k].startIteration) &&
                 (forall j :: 0 <= j < k ==> s[1..][j].startIteration != s[1..][k].startIteration);
        assert s[k + 1] == r.value;
        forall j | 0 <= j < k + 1
          ensures s[j].startIteration != s[k + 1].startIteration
        {
          if j > 0 {
            assert s[1..][j - 1] == s[j];
          }
        }
        forall j | 0 <= j < |s| && s[j].startIteration <= t
          ensures s[j].startIteration <= s[k + 1].startIteration
        {
          if j > 0 {
            assert s[1..][j - 1] == s[j];
          }
        }
      } else {
        forall j | 0 <= j < |s|
          ensures s[j].startIteration > t
        {
          if j > 0 {
            assert s[1..][j - 1] == s[j];
          }
        }
      }
    }
  }

  /** In a descending order, inserting `x` makes it the first started entry exactly
      when `Earlier` picks it. */
  lemma {:induction false} InsertFirstStarted(x: ModelInfo, s: seq<ModelInfo>, t: int)
    requires Descending(s)
    ensures FirstStarted(InsertDescending(x, s), t) == Earlier(x, FirstStarted(s, t), t)
    decreases |s|
  {
    if |s| > 0 {
      if x.startIteration >= s[0].startIteration {
        var rest := FirstStarted(s, t);
        if rest.Some? {
          var p :| 0 <= p < |s| && s[p] == rest.value;
          assert p == 0 || s[0].startIteration >= s[p].startIteration;
        }
      } else {
        assert Descending(s[1..]) by {
          forall i, j | 0 <= i < j < |s[1..]|
            ensures s[1..][i].startIteration >= s[1..][j].startIteration
          {
            assert s[1..][i] == s[i + 1] && s[1..][j] == s[j + 1];
          }
        }
        InsertFirstStarted(x, s[1..], t);
        assert InsertDescending(x, s) == [s[0]] + InsertDescending(x, s[1..]);
      }
    }
  }

  /** The sort is stable where it matters: its first started entry is the first
      latest-started entry of the unsorted sequence. */
  lemma {:induction false} SortFirstStarted(s: seq<ModelInfo>, t: int)
    ensures FirstStarted(SortDescending(s), t) == FirstLatest(s, t)
    decreases |s|
  {
    if |s| > 0 {
      SortFirstStarted(s[1..], t);
      SortDescendingFacts(s[1..]);
      InsertFirstStarted(s[0], SortDescending(s[1..]), t);
    }
  }

  /** `get_iteration_model`: the family and id of an entry with the greatest start
      not above `iteration`; `None` (Python's `(None, None)`) when no entry qualifies. */
  method GetIterationModel(iteration: int, cfg: seq<Entry>) returns (r: Option<(string, string)>)
    ensures r.None? <==> forall k :: 0 <= k < |cfg| ==> cfg[k].1.startIteration > iteration
    ensures r.Some? ==>
              exists info :: LatestStarted(cfg, iteration, info) && r.value == (info.modelFamily, info.modelId)
    ensures r == match FirstLatest(Values(cfg), iteration)
                 case Some(info) => Some((info.modelFamily, info.modelId))
                 case None => None
  {
    var sortedModels := SortDescending(Values(cfg));
    SortFirstStarted(Values(cfg), iteration);
    r := None;
    var i := 0;
    while i < |sortedModels|
      invariant 0 <= i <= |sortedModels|
      invariant forall j :: 0 <= j < i ==> sortedModels[j].startIteration > iteration
      invariant FirstStarted(sortedModels[i..], iteration) == FirstStarted(sortedModels, iteration)
    {
      var modelInfo := sortedModels[i];
      if iteration >= modelInfo.startIteration {
        FirstStartedIsLatest(cfg, iteration, sortedModels, i);
        r := Some((modelInfo.modelFamily, modelInfo.modelId));
        return;
      }
      assert sortedModels[i..][1..] == sortedModels[i + 1..];
      i := i + 1;
    }
    NoneStarted(cfg, iteration, sortedModels);
  }

  /** With pairwise distinct starts (as validation guarantees) the scheduled entry
      is determined: every latest-started entry is entry `k`. */
  lemma LatestStartedUnique(cfg: seq<Entry>, iteration: int, k: int)
    requires forall i, j :: 0 <= i < j < |cfg| ==> cfg[i].1.startIteration != cfg[j].1.startIteration
    requires 0 <= k < |cfg| && LatestStarted(cfg, iteration, cfg[k].1)
    ensures forall info :: LatestStarted(cfg, iteration, info) ==> info == cfg[k].1
  {
    forall info | LatestStarted(cfg, iteration, info)
      ensures info == cfg[k].1
    {
      var m :| 0 <= m < |cfg| && cfg[m].1 == info;
      assert info.startIteration == cfg[k].1.startIteration;
      assert m == k;
    }
  }

  /** After validation every iteration from 0 on has a scheduled model, since one
      entry starts at 0. */
  lemma ValidatedScheduleCoversAll(sched: seq<Entry>, maxIterations: int, iteration: int)
    requires ResolvedSchedule(sched, maxIterations)
    requires iteration >= 0
    ensures exists k :: 0 <= k < |sched| && sched[k].1.startIteration <= iteration
  {
    var z :| 0 <= z < |sched| && sched[z].1.startIteration == 0;
    assert sched[z].1.startIteration <= iteration;
  }

  // ---------------------------------------------------------------------------
  // analyze_simulation_results
  // ---------------------------------------------------------------------------

  /** `{"count": c, "first_time": t}` of one output signal. */
  datatype SignalStat = SignalStat(count: nat, firstTime: nat)

  /** A dictionary from signal names, as its items in insertion order. */
  type SignalTable = seq<(string, SignalStat)>

  predicate DistinctKeys(t: SignalTable) {
    forall i, j :: 0 <= i < j < |t| ==> t[i].0 != t[j].0
  }

  function Lookup(t: SignalTable, signal: string): Option<SignalStat> {
    if |t| == 0 then None
    else if t[0].0 == signal then Some(t[0].1)
    else Lookup(t[1..], signal)
  }

  /** `t[signal] = stat`: an existing key keeps its place, a new key goes last. */
  function Put(t: SignalTable, signal: string, stat: SignalStat): (r: SignalTable)
    ensures |r| == (if Lookup(t, signal).Some? then |t| else |t| + 1)
    ensures forall k :: 0 <= k < |t| ==> r[k].0 == t[k].0
    ensures Lookup(t, signal).None? ==> r[|t|] == (signal, stat)
  {
    if |t| == 0 then [(signal, stat)]
    else if t[0].0 == signal then [(signal, stat)] + t[1..]
    else [t[0]] + Put(t[1..], signal, stat)
  }

  lemma {:induction false} LookupPut(t: SignalTable, signal: string, stat: SignalStat, other: string)
    ensures Lookup(Put(t, signal, stat), other) ==
              if other == signal then Some(stat) else Lookup(t, other)
    decreases |t|
  {
    if |t| > 0 && t[0].0 != signal {
      LookupPut(t[1..], signal, stat, other);
    }
  }

  lemma {:induction false} LookupSomeIsKey(t: SignalTable, signal: string)
    ensures Lookup(t, signal).Some? <==> exists k :: 0 <= k < |t| && t[k].0 == signal
    decreases |t|
  {
    if |t| > 0 {
      LookupSomeIsKey(t[1..], signal);
      assert forall k :: 1 <= k < |t| ==> t[k] == t[1..][k - 1];
      if Lookup(t[1..], signal).Some? {
        var k :| 0 <= k < |t[1..]| && t[1..][k].0 == signal;
        assert t[k + 1].0 == signal;
      }
    }
  }

  lemma {:induction false} PutKeepsDistinct(t: SignalTable, signal: string, stat: SignalStat)
    requires DistinctKeys(t)
    ensures DistinctKeys(Put(t, signal, stat))
    decreases |t|
  {
    LookupSomeIsKey(t, signal);
    if |t| > 0 && t[0].0 != signal {
      assert DistinctKeys(t[1..]);
      PutKeepsDistinct(t[1..], signal, stat);
      var r := Put(t[1..], signal, stat);
      LookupSomeIsKey(t[1..], signal);
      forall k | 0 <= k < |r|
        ensures r[k].0 != t[0].0
      {
        if k < |t[1..]| {
          assert r[k].0 == t[1..][k].0 == t[k + 1].0;
        }
      }
    }
  }

  /** One `Output '<signal>' has <c> mismatches. First mismatch occurred at time <t>` line. */
  datatype SignalMatch = SignalMatch(signal: string, count: nat, firstTime: nat)

  const SummaryMarker := "Mismatches:"

  /** A match of `Mismatches:\s*(\d+)\s*in\s*(\d+)` at `i`: the two numbers. Each
      `\s*` and `\d+` is maximal, since every shorter choice leaves a character the
      next part cannot match. */
  function SummaryAt(s: string, i: nat): Option<(nat, nat)> {
    if !OccursAt(s, SummaryMarker, i) then None
    else
      var a := i + 11 + SpaceRun(s, i + 11);
      var d1 := DigitRun(s, a);
      if d1 == 0 then None
      else
        var b := a + d1 + SpaceRun(s, a + d1);
        if !OccursAt(s, "in", b) then None
        else
          var c := b + 2 + SpaceRun(s, b + 2);
          var d2 := DigitRun(s, c);
          if d2 == 0 then None
          else Some((DigitsValue(s[a..a + d1]), DigitsValue(s[c..c + d2])))
  }

  /** `re.search` for a pattern that `m` matches at one index: the leftmost match
      from `i` on. */
  function FirstMatch<T>(m: (string, nat) -> Option<T>, s: string, i: nat): (r: Option<T>)
    requires i <= |s|
    ensures r.Some? ==>
              exists p :: i <= p <= |s| && m(s, p) == r &&
                forall q :: i <= q < p ==> m(s, q).None?
    ensures r.None? ==> forall p :: i <= p <= |s| ==> m(s, p).None?
    decreases |s| - i
  {
    if m(s, i).Some? then m(s, i)
    else if i == |s| then None
    else FirstMatch(m, s, i + 1)
  }

  /** `re.search` of the summary pattern from `i` on. */
  function FirstSummary(s: string, i: nat): (r: Option<(nat, nat)>)
    requires i <= |s|
    ensures r.Some? ==>
              exists p :: i <= p <= |s| && SummaryAt(s, p) == r &&
                forall q :: i <= q < p ==> SummaryAt(s, q).None?
    ensures r.None? ==> forall p :: i <= p <= |s| ==> SummaryAt(s, p).None?
  {
    FirstMatch(SummaryAt, s, i)
  }

  const SignalPrefix := "Output '"
  const SignalHas := "' has "
  const SignalMismatches := " mismatches"
  const SignalFirst := " First mismatch occurred at time "

  /** A match of the per-signal pattern at `i`, with the index just past it. The
      `.` after "mismatches" is any character but a newline. */
  function SignalAt(s: string, i: nat): (r: Option<(SignalMatch, nat)>)
    requires i <= |s|
    ensures r.Some? ==> i < r.value.1 <= |s|
  {
    if !OccursAt(s, SignalPrefix, i) then None
    else
      var a := i + |SignalPrefix|;
      var w := WordRun(s, a);
      if w == 0 || !OccursAt(s, SignalHas, a + w) then None
      else
        var b := a + w + |SignalHas|;
        var d1 := DigitRun(s, b);
        if d1 == 0 || !OccursAt(s, SignalMismatches, b + d1) then None
        else
          var dot := b + d1 + |SignalMismatches|;
          if dot >= |s| || s[dot] == '\n' || !OccursAt(s, SignalFirst, dot + 1) then None
          else
            var c := dot + 1 + |SignalFirst|;
            var d2 := DigitRun(s, c);
            if d2 == 0 then None
            else
              var m := SignalMatch(s[a..a + w], DigitsValue(s[b..b + d1]), DigitsValue(s[c..c + d2]));
              Some((m, c + d2))
  }

  /** `re.finditer` of the per-signal pattern from `i` on: leftmost matches, each
      search resuming where the previous match ended. */
  function SignalMatches(s: string, i: nat): seq<SignalMatch>
    requires i <= |s|
    decreases |s| - i
  {
    if i == |s| then []
    else
      match SignalAt(s, i)
      case Some((m, e)) => [m] + SignalMatches(s, e)
      case None => SignalMatches(s, i + 1)
  }

  /** The table the loop fills: later lines for a signal overwrite earlier ones. */
  function TableOf(ms: seq<SignalMatch>): SignalTable {
    if |ms| == 0 then []
    else
      var last := ms[|ms| - 1];
      Put(TableOf(ms[..|ms| - 1]), last.signal, SignalStat(last.count, last.firstTime))
  }

  /** Reference reading of the table: the last line naming `signal`, if any. */
  function LastFor(ms: seq<SignalMatch>, signal: string): Option<SignalStat> {
    if |ms| == 0 then None
    else if ms[|ms| - 1].signal == signal then Some(SignalStat(ms[|ms| - 1].count, ms[|ms| - 1].firstTime))
    else LastFor(ms[..|ms| - 1], signal)
  }

  /** The table holds each signal once, with the data of its last line. */
  lemma {:induction false} TableOfLastWins(ms: seq<SignalMatch>, signal: string)
    ensures DistinctKeys(TableOf(ms))
    ensures Lookup(TableOf(ms), signal) == LastFor(ms, signal)
    decreases |ms|
  {
    if |ms| > 0 {
      var last := ms[|ms| - 1];
      TableOfLastWins(ms[..|ms| - 1], signal);
      LookupPut(TableOf(ms[..|ms| - 1]), last.signal, SignalStat(last.count, last.firstTime), signal);
      PutKeepsDistinct(TableOf(ms[..|ms| - 1]), last.signal, SignalStat(last.count, last.firstTime));
    }
  }

  function SummaryLine(n: nat, m: nat): string {
    "\nDetected " + NatToString(n) + " mismatches out of " + NatToString(m) + " samples"
  }

  function SummaryFeedback(stdout: string): seq<string> {
    match FirstSummary(stdout, 0)
    case Some((n, m)) => [SummaryLine(n, m)]
    case None => []
  }

  function SignalLine(m: SignalMatch): string {
    "- Signal " + m.signal + ": " + NatToString(m.count) + " mismatches, first occurred at time " +
    NatToString(m.firstTime)
  }

  /** Feedback lines for the signals with a positive count, in input order. */
  function SignalFeedback(ms: seq<SignalMatch>): seq<string> {
    if |ms| == 0 then []
    else
      var last := ms[|ms| - 1];
      SignalFeedback(ms[..|ms| - 1]) + (if last.count > 0 then [SignalLine(last)] else [])
  }

  /** The mismatch count the analysis reports: the first summary's `n`, or the sentinel. */
  function SummaryCount(stdout: string): (r: Count)
    ensures r.Finite? <==> exists p :: 0 <= p <= |stdout| && SummaryAt(stdout, p).Some?
    ensures r.Finite? ==>
              exists p :: 0 <= p <= |stdout| && SummaryAt(stdout, p).Some? &&
                r.n == SummaryAt(stdout, p).value.0 &&
                forall q :: 0 <= q < p ==> SummaryAt(stdout, q).None?
  {
    match FirstSummary(stdout, 0)
    case Some((n, _)) => Finite(n)
    case None => Infinite
  }

  /** One step of the per-signal loop. */
  lemma SignalStep(ms: seq<SignalMatch>, i: nat)
    requires i < |ms|
    ensures SignalFeedback(ms[..i + 1]) ==
              SignalFeedback(ms[..i]) + (if ms[i].count > 0 then [SignalLine(ms[i])] else [])
    ensures TableOf(ms[..i + 1]) == Put(TableOf(ms[..i]), ms[i].signal, SignalStat(ms[i].count, ms[i].firstTime))
  {
    assert ms[..i + 1][..i] == ms[..i];
  }

  /** The `for match in re.finditer(...)` loop of `analyze_simulation_results`,
      over the matches `ms`, appending to the feedback gathered so far. */
  method RecordSignals(ms: seq<SignalMatch>, feedback0: seq<string>)
      returns (feedback: seq<string>, currentMismatches: SignalTable)
    ensures feedback == feedback0 + SignalFeedback(ms)
    ensures currentMismatches == TableOf(ms)
  {
    feedback := feedback0;
    currentMismatches := [];
    var i := 0;
    assert feedback == feedback0 + SignalFeedback(ms[..i]);
    while i < |ms|
      invariant 0 <= i <= |ms|
      invariant feedback == feedback0 + SignalFeedback(ms[..i])
      invariant currentMismatches == TableOf(ms[..i])
    {
      SignalStep(ms, i);
      var signal, count, firstTime := ms[i].signal, ms[i].count, ms[i].firstTime;
      currentMismatches := Put(currentMismatches, signal, SignalStat(count, firstTime));
      if count > 0 {
        feedback := feedback + [SignalLine(ms[i])];
        assert feedback0 + SignalFeedback(ms[..i]) + [SignalLine(ms[i])] ==
               feedback0 + (SignalFeedback(ms[..i]) + [SignalLine(ms[i])]);
      }
      i := i + 1;
    }
    assert ms[..i] == ms;
  }

  /** `analyze_simulation_results`: the count of the first summary line (the
      sentinel when there is none), the feedback lines, and the per-signal table. */
  method AnalyzeSimulationResults(stdout: string)
      returns (feedback: seq<string>, currentMismatches: SignalTable, mismatchCount: Count)
    ensures mismatchCount == SummaryCount(stdout)
    ensures feedback == SummaryFeedback(stdout) + SignalFeedback(SignalMatches(stdout, 0))
    ensures currentMismatches == TableOf(SignalMatches(stdout, 0))
  {
    feedback := [];
    mismatchCount := Infinite;
    var totalMatch := FirstSummary(stdout, 0);
    SummaryParts(stdout);
    if totalMatch.Some? {
      mismatchCount := Finite(totalMatch.value.0);
      feedback := feedback + [SummaryLine(totalMatch.value.0, totalMatch.value.1)];
    }
    assert feedback == SummaryFeedback(stdout) && mismatchCount == SummaryCount(stdout);
    feedback, currentMismatches := RecordSignals(SignalMatches(stdout, 0), feedback);
  }

  /** The count and the summary line both come from the first summary match. */
  lemma SummaryParts(stdout: string)
    ensures SummaryCount(stdout) ==
              if FirstSummary(stdout, 0).Some? then Finite(FirstSummary(stdout, 0).value.0) else Infinite
    ensures SummaryFeedback(stdout) ==
              if FirstSummary(stdout, 0).Some? then
                [SummaryLine(FirstSummary(stdout, 0).value.0, FirstSummary(stdout, 0).value.1)]
              else []
  {
  }

  function PositiveCount(ms: seq<SignalMatch>): nat {
    if |ms| == 0 then 0
    else PositiveCount(ms[..|ms| - 1]) + (if ms[|ms| - 1].count > 0 then 1 else 0)
  }

  /** There is one feedback line per signal line with a positive count, and each
      names a signal with a positive count. */
  lemma {:induction false} SignalFeedbackShape(ms: seq<SignalMatch>)
    ensures |SignalFeedback(ms)| == PositiveCount(ms)
    ensures forall k :: 0 <= k < |SignalFeedback(ms)| ==>
              exists j :: 0 <= j < |ms| && ms[j].count > 0 && SignalFeedback(ms)[k] == SignalLine(ms[j])
    decreases |ms|
  {
    if |ms| > 0 {
      var init := ms[..|ms| - 1];
      SignalFeedbackShape(init);
      forall k | 0 <= k < |SignalFeedback(ms)|
        ensures exists j :: 0 <= j < |ms| && ms[j].count > 0 && SignalFeedback(ms)[k] == SignalLine(ms[j])
      {
        if k < |SignalFeedback(init)| {
          var j :| 0 <= j < |init| && init[j].count > 0 && SignalFeedback(init)[k] == SignalLine(init[j]);
          assert ms[j] == init[j];
        } else {
          assert SignalFeedback(ms)[k] == SignalLine(ms[|ms| - 1]);
        }
      }
    }
  }
}
