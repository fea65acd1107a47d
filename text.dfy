/** Python `str` operations the scripts rely on, over `seq<char>`.
    Only the ASCII part of Python's character classes is modelled:
    `IsSpace` is `str.isspace` / regex `\s`, `IsDigit` is `\d`, `IsWordChar` is `\w`. */
module TextUtil {

  predicate IsSpace(c: char) {
    c == ' ' || c == '\t' || c == '\n' || c == '\r' || c == '\U{0B}' || c == '\U{0C}' ||
    ('\U{1C}' <= c <= '\U{1F}')
  }

  predicate IsDigit(c: char) { '0' <= c <= '9' }

  predicate IsWordChar(c: char) {
    ('a' <= c <= 'z') || ('A' <= c <= 'Z') || IsDigit(c) || c == '_'
  }

  function LowerChar(c: char): char {
    if 'A' <= c <= 'Z' then (c as int + 32) as char else c
  }

  /** `s.lower()` on ASCII letters. */
  function Lower(s: string): (r: string)
    ensures |r| == |s|
    ensures forall i :: 0 <= i < |s| ==> r[i] == LowerChar(s[i])
  {
    seq(|s|, i requires 0 <= i < |s| => LowerChar(s[i]))
  }

  /** `s.lstrip()`: drop the longest all-space prefix. */
  function LStrip(s: string): string {
    if |s| > 0 && IsSpace(s[0]) then LStrip(s[1..]) else s
  }

  /** `s.rstrip()`: drop the longest all-space suffix. */
  function RStrip(s: string): string {
    if |s| > 0 && IsSpace(s[|s| - 1]) then RStrip(s[..|s| - 1]) else s
  }

  /** `lstrip()` yields a suffix that does not start with white space. */
  lemma {:induction false} LStripShape(s: string)
    ensures |LStrip(s)| <= |s| && LStrip(s) == s[|s| - |LStrip(s)|..]
    ensures LStrip(s) == [] || !IsSpace(LStrip(s)[0])
  {
    if |s| > 0 && IsSpace(s[0]) {
      LStripShape(s[1..]);
      assert s[1..][|s| - 1 - |LStrip(s)|..] == s[|s| - |LStrip(s)|..];
    }
  }

  /** `rstrip()` yields a prefix that does not end with white space. */
  lemma {:induction false} RStripShape(s: string)
    ensures |RStrip(s)| <= |s| && RStrip(s) == s[..|RStrip(s)|]
    ensures RStrip(s) == [] || !IsSpace(RStrip(s)[|RStrip(s)| - 1])
  {
    if |s| > 0 && IsSpace(s[|s| - 1]) {
      RStripShape(s[..|s| - 1]);
      assert s[..|s| - 1][..|RStrip(s)|] == s[..|RStrip(s)|];
    }
  }

  /** `lstrip()` removes exactly the leading white space. */
  lemma {:induction false} LStripFacts(s: string)
    ensures |LStrip(s)| <= |s| && LStrip(s) == s[|s| - |LStrip(s)|..]
    ensures forall i :: 0 <= i < |s| - |LStrip(s)| ==> IsSpace(s[i])
    ensures LStrip(s) == [] || !IsSpace(LStrip(s)[0])
  {
    if |s| > 0 && IsSpace(s[0]) {
      LStripFacts(s[1..]);
      forall i | 0 <= i < |s| - |LStrip(s)|
        ensures IsSpace(s[i])
      {
        if i > 0 {
          assert s[i] == s[1..][i - 1];
        }
      }
    }
  }

  /** `rstrip()` removes exactly the trailing white space. */
  lemma {:induction false} RStripFacts(s: string)
    ensures |RStrip(s)| <= |s| && RStrip(s) == s[..|RStrip(s)|]
    ensures forall i :: |RStrip(s)| <= i < |s| ==> IsSpace(s[i])
    ensures RStrip(s) == [] || !IsSpace(RStrip(s)[|RStrip(s)| - 1])
  {
    if |s| > 0 && IsSpace(s[|s| - 1]) {
      RStripFacts(s[..|s| - 1]);
      forall i | |RStrip(s)| <= i < |s|
        ensures IsSpace(s[i])
      {
        if i < |s| - 1 {
          assert s[i] == s[..|s| - 1][i];
        }
      }
    }
  }

  /** `s.strip()`. */
  function Strip(s: string): string {
    RStrip(LStrip(s))
  }

  /** A string that `strip()` leaves alone. */
  predicate IsStripped(s: string) {
    s == [] || (!IsSpace(s[0]) && !IsSpace(s[|s| - 1]))
  }

  lemma StripIsStripped(s: string)
    ensures IsStripped(Strip(s))
  {
    var l := LStrip(s);
    LStripShape(s);
    RStripShape(l);
    var r := RStrip(l);
    if r != [] {
      assert r[0] == l[0];
    }
  }

  lemma StripSlice(s: string)
    ensures |LStrip(s)| <= |s| && |s| - |LStrip(s)| + |Strip(s)| <= |s|
    ensures Strip(s) == s[|s| - |LStrip(s)|..|s| - |LStrip(s)| + |Strip(s)|]
  {
    var l := LStrip(s);
    LStripShape(s);
    RStripShape(l);
    var r := RStrip(l);
    var i := |s| - |l|;
    SliceOfSuffix(s, i, |r|);
  }

  lemma SliceOfSuffix(s: string, i: nat, k: nat)
    requires i <= |s| && k <= |s| - i
    ensures s[i..][..k] == s[i..i + k]
  {
  }

  lemma StrippedFixed(s: string)
    requires IsStripped(s)
    ensures Strip(s) == s
  {
    if s != [] {
      assert LStrip(s) == s;
    }
  }

  /** `strip()` yields a stripped substring of its argument; a stripped string is its own strip. */
  lemma StripFacts(s: string)
    ensures IsStripped(Strip(s))
    ensures |LStrip(s)| <= |s| && |s| - |LStrip(s)| + |Strip(s)| <= |s|
    ensures Strip(s) == s[|s| - |LStrip(s)|..|s| - |LStrip(s)| + |Strip(s)|]
    ensures IsStripped(s) ==> Strip(s) == s
  {
    StripIsStripped(s);
    StripSlice(s);
    if IsStripped(s) {
      StrippedFixed(s);
    }
  }

  /** Characters of `Strip(s)` are characters of `s`. */
  lemma StripChars(s: string, c: char)
    requires c !in s
    ensures c !in Strip(s)
  {
    StripFacts(s);
  }

  predicate StartsWith(s: string, p: string) {
    |p| <= |s| && s[..|p|] == p
  }

  predicate EndsWith(s: string, p: string) {
    |p| <= |s| && s[|s| - |p|..] == p
  }

  predicate OccursAt(s: string, p: string, i: int) {
    0 <= i && i + |p| <= |s| && s[i..i + |p|] == p
  }

  /** Python's `p in s`. */
  predicate Contains(s: string, p: string)
    decreases |s|
  {
    StartsWith(s, p) || (|s| > 0 && Contains(s[1..], p))
  }

  /** Where `p in s` finds `p`. */
  lemma {:induction false} ContainsWitness(s: string, p: string) returns (i: nat)
    requires Contains(s, p)
    ensures i <= |s| && OccursAt(s, p, i)
    decreases |s|
  {
    if StartsWith(s, p) {
      i := 0;
    } else {
      var j := ContainsWitness(s[1..], p);
      i := j + 1;
      assert s[i..i + |p|] == s[1..][j..j + |p|];
    }
  }

  /** An occurrence at any index makes `p in s` true. */
  lemma {:induction false} OccursContains(s: string, p: string, i: nat)
    requires OccursAt(s, p, i)
    ensures Contains(s, p)
    decreases i
  {
    if i > 0 {
      assert s[1..][i - 1..i - 1 + |p|] == s[i..i + |p|];
      OccursContains(s[1..], p, i - 1);
    } else {
      assert StartsWith(s, p);
    }
  }

  /** `p in s` holds exactly when `p` occurs at some index of `s`. */
  lemma ContainsOccurs(s: string, p: string)
    ensures Contains(s, p) <==> exists i :: 0 <= i <= |s| && OccursAt(s, p, i)
  {
    if Contains(s, p) {
      var i := ContainsWitness(s, p);
    }
    forall i | 0 <= i <= |s| && OccursAt(s, p, i)
      ensures Contains(s, p)
    {
      OccursContains(s, p, i);
    }
  }

  lemma ContainsPrefix(s: string, p: string)
    requires StartsWith(s, p)
    ensures Contains(s, p)
  {
  }

  lemma ContainsAppend(a: string, s: string, b: string, p: string)
    requires Contains(s, p)
    ensures Contains(a + s + b, p)
  {
    ContainsOccurs(s, p);
    var i :| 0 <= i <= |s| && OccursAt(s, p, i);
    assert (a + s + b)[|a| + i..|a| + i + |p|] == s[i..i + |p|];
    assert OccursAt(a + s + b, p, |a| + i);
    ContainsOccurs(a + s + b, p);
  }

  lemma ContainsExtend(s: string, b: string, p: string)
    requires Contains(s, p)
    ensures Contains(s + b, p)
  {
    ContainsAppend("", s, b, p);
    assert "" + s + b == s + b;
  }

  lemma ContainsWithin(a: string, s: string, p: string)
    requires Contains(s, p)
    ensures Contains(a + s, p)
  {
    ContainsAppend(a, s, "", p);
    assert a + s + "" == a + s;
  }

  lemma ContainsSuffix(s: string, p: string)
    ensures Contains(s + p, p)
  {
    assert (s + p)[|s|..|s| + |p|] == p;
    OccursContains(s + p, p, |s|);
  }

  /** Index of the first occurrence of `p` in `s`, or -1 (Python's `str.find`). */
  function Find(s: string, p: string): (r: int)
    ensures -1 <= r <= |s|
  {
    FindFrom(s, p, 0)
  }

  function FindFrom(s: string, p: string, i: nat): (r: int)
    requires i <= |s|
    ensures r == -1 || i <= r <= |s|
    decreases |s| - i
  {
    if OccursAt(s, p, i) then i
    else if i == |s| then -1
    else FindFrom(s, p, i + 1)
  }

  lemma {:induction false} FindFromFacts(s: string, p: string, i: nat)
    requires i <= |s|
    ensures FindFrom(s, p, i) >= 0 ==> OccursAt(s, p, FindFrom(s, p, i))
    ensures FindFrom(s, p, i) >= 0 ==> forall j :: i <= j < FindFrom(s, p, i) ==> !OccursAt(s, p, j)
    ensures FindFrom(s, p, i) == -1 <==> forall j :: i <= j <= |s| ==> !OccursAt(s, p, j)
    decreases |s| - i
  {
    if !OccursAt(s, p, i) && i < |s| {
      FindFromFacts(s, p, i + 1);
    }
  }

  /** `str.find` returns the first occurrence, and -1 exactly when there is none. */
  lemma FindFacts(s: string, p: string)
    ensures Find(s, p) >= 0 ==> OccursAt(s, p, Find(s, p))
    ensures Find(s, p) >= 0 ==> forall j :: 0 <= j < Find(s, p) ==> !OccursAt(s, p, j)
    ensures Find(s, p) == -1 <==> !Contains(s, p)
  {
    FindFromFacts(s, p, 0);
    ContainsOccurs(s, p);
  }

  /** `s.split(p)[0]`: the text before the first `p`. */
  function Before(s: string, p: string): string {
    var k := Find(s, p);
    if k < 0 then s else s[..k]
  }

  /** The text after the first `p`, assuming it occurs. */
  function After(s: string, p: string): string {
    FindFacts(s, p);
    var k := Find(s, p);
    if k < 0 then "" else s[k + |p|..]
  }

  /** `s.split('\n')`: the pieces between newlines; never empty. */
  function Split(s: string): (r: seq<string>)
    ensures |r| >= 1
    ensures forall k :: 0 <= k < |r| ==> '\n' !in r[k]
  {
    if |s| == 0 then [""]
    else
      var rest := Split(s[1..]);
      if s[0] == '\n' then [""] + rest
      else [[s[0]] + rest[0]] + rest[1..]
  }

  /** `sep.join(ls)`. */
  function Join(sep: string, ls: seq<string>): string {
    if |ls| == 0 then ""
    else if |ls| == 1 then ls[0]
    else ls[0] + sep + Join(sep, ls[1..])
  }

  predicate NoNewlines(ls: seq<string>) {
    forall k :: 0 <= k < |ls| ==> '\n' !in ls[k]
  }

  lemma {:induction false} SplitNoNewline(a: string)
    requires '\n' !in a
    ensures Split(a) == [a]
  {
    if |a| > 0 {
      assert '\n' !in a[1..];
      SplitNoNewline(a[1..]);
      assert [a[0]] + a[1..] == a;
    }
  }

  lemma {:induction false} SplitAppend(a: string, b: string)
    ensures Split(a + "\n" + b) == Split(a) + Split(b)
  {
    if |a| == 0 {
      assert a + "\n" + b == "\n" + b;
      assert ("\n" + b)[1..] == b;
    } else {
      assert (a + "\n" + b)[1..] == a[1..] + "\n" + b;
      SplitAppend(a[1..], b);
    }
  }

  /** Splitting a newline-join of newline-free lines gives the lines back. */
  lemma {:induction false} SplitJoin(ls: seq<string>)
    requires |ls| >= 1 && NoNewlines(ls)
    ensures Split(Join("\n", ls)) == ls
  {
    if |ls| == 1 {
      SplitNoNewline(ls[0]);
    } else {
      SplitJoin(ls[1..]);
      SplitNoNewline(ls[0]);
      SplitAppend(ls[0], Join("\n", ls[1..]));
      assert ls == [ls[0]] + ls[1..];
    }
  }

  /** Joining the pieces of a split with newlines gives the text back. */
  lemma {:induction false} JoinSplit(s: string)
    ensures Join("\n", Split(s)) == s
  {
    if |s| > 0 {
      var rest := Split(s[1..]);
      JoinSplit(s[1..]);
      if s[0] == '\n' {
        assert Split(s) == [""] + rest;
        assert s == "\n" + s[1..];
      } else if |rest| == 1 {
        assert s == [s[0]] + s[1..];
      } else {
        assert Split(s)[1..] == rest[1..];
        assert Join("\n", rest) == rest[0] + "\n" + Join("\n", rest[1..]);
        assert s == [s[0]] + s[1..];
      }
    }
  }

  /** The first piece of `Split(s)` keeps a newline-free prefix of `s`. */
  lemma {:induction false} SplitFirstPrefix(s: string, p: string)
    requires StartsWith(s, p) && '\n' !in p
    ensures StartsWith(Split(s)[0], p)
  {
    if |p| > 0 {
      assert s[0] == p[0];
      assert StartsWith(s[1..], p[1..]) by {
        assert s[1..][..|p| - 1] == s[..|p|][1..];
      }
      assert '\n' !in p[1..];
      SplitFirstPrefix(s[1..], p[1..]);
      assert Split(s)[0] == [s[0]] + Split(s[1..])[0];
    }
  }

  function DigitValue(c: char): nat
    requires IsDigit(c)
  {
    c as int - '0' as int
  }

  /** `int(ds)` for a string of decimal digits. */
  function DigitsValue(ds: string): nat
    requires forall i :: 0 <= i < |ds| ==> IsDigit(ds[i])
  {
    if |ds| == 0 then 0 else 10 * DigitsValue(ds[..|ds| - 1]) + DigitValue(ds[|ds| - 1])
  }

  /** `str(n)` for a natural number. */
  function NatToString(n: nat): (r: string)
    ensures |r| >= 1
    ensures forall i :: 0 <= i < |r| ==> IsDigit(r[i])
    ensures DigitsValue(r) == n
  {
    var d := ['0' + (n % 10) as char];
    if n < 10 then d else NatToString(n / 10) + d
  }

  /** Length of the run of characters satisfying `IsSpace` starting at `i`. */
  function SpaceRun(s: string, i: nat): (k: nat)
    requires i <= |s|
    ensures i + k <= |s|
    ensures forall j :: i <= j < i + k ==> IsSpace(s[j])
    ensures i + k == |s| || !IsSpace(s[i + k])
    decreases |s| - i
  {
    if i < |s| && IsSpace(s[i]) then 1 + SpaceRun(s, i + 1) else 0
  }

  /** Length of the run of decimal digits starting at `i`. */
  function DigitRun(s: string, i: nat): (k: nat)
    requires i <= |s|
    ensures i + k <= |s|
    ensures forall j :: i <= j < i + k ==> IsDigit(s[j])
    ensures i + k == |s| || !IsDigit(s[i + k])
    decreases |s| - i
  {
    if i < |s| && IsDigit(s[i]) then 1 + DigitRun(s, i + 1) else 0
  }

  /** Length of the run of `\w` characters starting at `i`. */
  function WordRun(s: string, i: nat): (k: nat)
    requires i <= |s|
    ensures i + k <= |s|
    ensures forall j :: i <= j < i + k ==> IsWordChar(s[j])
    ensures i + k == |s| || !IsWordChar(s[i + k])
    decreases |s| - i
  {
    if i < |s| && IsWordChar(s[i]) then 1 + WordRun(s, i + 1) else 0
  }
}
