/** Text normalisation: `clean_text` and the Python string primitives it is built from
    (`str.split('\n')`, `str.strip()`, `'\n'.join(...)`). */
module Text {

  /** Python's `str.isspace()` for one code point: the characters `str.strip()` removes. */
  predicate IsSpace(c: char) {
    ('\t' <= c <= '\r') || ('\U{1C}' <= c <= ' ') || c == '\U{85}' || c == '\U{A0}'
    || c == '\U{1680}' || ('\U{2000}' <= c <= '\U{200A}') || c == '\U{2028}' || c == '\U{2029}'
    || c == '\U{202F}' || c == '\U{205F}' || c == '\U{3000}'
  }

  /** No leading and no trailing whitespace. */
  predicate Trimmed(s: string) {
    s == [] || (!IsSpace(s[0]) && !IsSpace(s[|s| - 1]))
  }

  /** `s.lstrip()`: `s` loses its whitespace prefix and nothing else. */
  function StripLeft(s: string): (r: string)
    ensures |r| <= |s| && r == s[|s| - |r|..]
    ensures r == [] || !IsSpace(r[0])
    ensures forall k :: 0 <= k < |s| - |r| ==> IsSpace(s[k])
  {
    if s != [] && IsSpace(s[0]) then StripLeft(s[1..]) else s
  }

  /** `s.rstrip()`: `s` loses its whitespace suffix and nothing else. */
  function StripRight(s: string): (r: string)
    ensures |r| <= |s| && r == s[..|r|]
    ensures r == [] || !IsSpace(r[|r| - 1])
    ensures forall k :: |r| <= k < |s| ==> IsSpace(s[k])
  {
    if s != [] && IsSpace(s[|s| - 1]) then StripRight(s[..|s| - 1]) else s
  }

  /** `s.strip()`. */
  function Strip(s: string): string {
    StripRight(StripLeft(s))
  }

  /** `s.split('\n')`: always at least one piece, separators dropped. */
  function Split(s: string): (r: seq<string>)
    ensures |r| >= 1
  {
    if s == [] then [""]
    else
      var rest := Split(s[1..]);
      if s[0] == '\n' then [""] + rest
      else [[s[0]] + rest[0]] + rest[1..]
  }

  /** `'\n'.join(ls)`. */
  function Join(ls: seq<string>): string {
    if |ls| == 0 then ""
    else if |ls| == 1 then ls[0]
    else ls[0] + "\n" + Join(ls[1..])
  }

  /** `[line.strip() for line in ls if line.strip()]`. */
  function CleanLines(ls: seq<string>): seq<string> {
    if ls == [] then []
    else (if Strip(ls[0]) == "" then [] else [Strip(ls[0])]) + CleanLines(ls[1..])
  }

  /** `clean_text(text)` (app/RSS.py:24-28). */
  function CleanText(text: string): string {
    if text == "" then "" else Join(CleanLines(Split(text)))
  }

  /** A proper output line of `clean_text`: non-empty, stripped, without a line break. */
  predicate CleanLine(l: string) {
    l != "" && '\n' !in l && Trimmed(l)
  }

  // ---------------------------------------------------------------------------
  // strip

  /** `s[..i]` and `s[j..]` are all whitespace. */
  predicate SpaceBorders(s: string, i: nat, j: nat)
    requires i <= j <= |s|
  {
    (forall k :: 0 <= k < i ==> IsSpace(s[k])) && (forall k :: j <= k < |s| ==> IsSpace(s[k]))
  }

  /** `strip()` removes exactly a whitespace prefix and a whitespace suffix. */
  lemma StripShape(s: string)
    ensures Trimmed(Strip(s))
    ensures exists i: nat, j: nat :: i <= j <= |s| && SpaceBorders(s, i, j) && Strip(s) == s[i..j]
  {
    var l := StripLeft(s);
    var r := StripRight(l);
    TwoSidedTrim(s, l, r);
  }

  /** If `l` is `s` without a whitespace prefix and `r` is `l` without a whitespace suffix, and
      neither starts nor ends with whitespace, then `r` is a substring of `s` between
      whitespace borders. */
  lemma TwoSidedTrim(s: string, l: string, r: string)
    requires |l| <= |s| && l == s[|s| - |l|..]
    requires l == [] || !IsSpace(l[0])
    requires forall k :: 0 <= k < |s| - |l| ==> IsSpace(s[k])
    requires |r| <= |l| && r == l[..|r|]
    requires r == [] || !IsSpace(r[|r| - 1])
    requires forall k :: |r| <= k < |l| ==> IsSpace(l[k])
    ensures Trimmed(r)
    ensures exists i: nat, j: nat :: i <= j <= |s| && SpaceBorders(s, i, j) && r == s[i..j]
  {
    var i := |s| - |l|;
    var j := i + |r|;
    assert r == s[i..j];
    forall k | j <= k < |s| ensures IsSpace(s[k]) {
      assert s[k] == l[k - i];
    }
    assert SpaceBorders(s, i, j);
    if r != [] {
      assert r[0] == l[0];
    }
  }

  /** Stripping a string that has no leading or trailing whitespace changes nothing. */
  lemma StripTrimmed(s: string)
    requires Trimmed(s)
    ensures Strip(s) == s
  {
  }

  /** `strip()` is idempotent. */
  lemma StripIdempotent(s: string)
    ensures Strip(Strip(s)) == Strip(s)
  {
    StripShape(s);
    StripTrimmed(Strip(s));
  }

  /** `strip()` introduces no line break. */
  lemma StripNoNewline(s: string)
    requires '\n' !in s
    ensures '\n' !in Strip(s)
  {
    StripShape(s);
    var i: nat, j: nat :| i <= j <= |s| && SpaceBorders(s, i, j) && Strip(s) == s[i..j];
    assert forall k :: 0 <= k < j - i ==> Strip(s)[k] == s[i + k];
  }

  lemma StripShorter(s: string)
    ensures |Strip(s)| <= |s|
  {
  }

  // ---------------------------------------------------------------------------
  // split and join

  /** No piece of `s.split('\n')` contains a line break. */
  lemma {:induction false} SplitPiecesNoNewline(s: string)
    ensures forall l :: l in Split(s) ==> '\n' !in l
  {
    if s != [] {
      SplitPiecesNoNewline(s[1..]);
      var rest := Split(s[1..]);
      if s[0] != '\n' {
        assert rest[0] in rest;
        assert Split(s) == [[s[0]] + rest[0]] + rest[1..];
        forall l | l in Split(s) ensures '\n' !in l {
          if l != [s[0]] + rest[0] {
            assert l in rest[1..];
          }
        }
      }
    }
  }

  /** A string without a line break splits into itself. */
  lemma {:induction false} SplitSingle(a: string)
    requires '\n' !in a
    ensures Split(a) == [a]
  {
    if a != [] {
      assert '\n' !in a[1..] by {
        forall k | 0 <= k < |a| - 1 ensures a[1..][k] != '\n' { assert a[1..][k] == a[k + 1]; }
      }
      SplitSingle(a[1..]);
      assert [a[0]] + a[1..] == a;
    }
  }

  /** Splitting `a + "\n" + b` yields `a` and the pieces of `b`. */
  lemma {:induction false} SplitCons(a: string, b: string)
    requires '\n' !in a
    ensures Split(a + "\n" + b) == [a] + Split(b)
  {
    if a == [] {
      assert a + "\n" + b == "\n" + b;
      assert ("\n" + b)[1..] == b;
    } else {
      var s := a + "\n" + b;
      assert s[0] == a[0];
      assert s[1..] == a[1..] + "\n" + b;
      assert '\n' !in a[1..] by {
        forall k | 0 <= k < |a| - 1 ensures a[1..][k] != '\n' { assert a[1..][k] == a[k + 1]; }
      }
      SplitCons(a[1..], b);
      assert [a[0]] + a[1..] == a;
    }
  }

  /** `'\n'.join` then `split('\n')` recovers the lines, if they hold no line break. */
  lemma {:induction false} SplitJoin(ls: seq<string>)
    requires |ls| >= 1
    requires forall l :: l in ls ==> '\n' !in l
    ensures Split(Join(ls)) == ls
  {
    if |ls| == 1 {
      SplitSingle(ls[0]);
    } else {
      assert forall l :: l in ls[1..] ==> l in ls;
      SplitJoin(ls[1..]);
      SplitCons(ls[0], Join(ls[1..]));
      assert [ls[0]] + ls[1..] == ls;
    }
  }

  /** Prepending to the first line prepends to the joined text. */
  lemma {:induction false} JoinPrependFirst(x: string, ls: seq<string>)
    requires |ls| >= 1
    ensures Join([x + ls[0]] + ls[1..]) == x + Join(ls)
  {
    var ms := [x + ls[0]] + ls[1..];
    if |ls| == 1 {
      assert ms == [x + ls[0]];
      assert Join(ls) == ls[0];
    } else {
      assert ms[0] == x + ls[0];
      assert ms[1..] == ls[1..];
      assert Join(ms) == (x + ls[0]) + "\n" + Join(ls[1..]);
      assert Join(ls) == ls[0] + "\n" + Join(ls[1..]);
    }
  }

  /** `split('\n')` then `'\n'.join` gives back the original text. */
  lemma {:induction false} JoinSplit(s: string)
    ensures Join(Split(s)) == s
  {
    if s != [] {
      JoinSplit(s[1..]);
      var rest := Split(s[1..]);
      if s[0] == '\n' {
        assert ([""] + rest)[1..] == rest;
        assert s == "\n" + s[1..];
      } else {
        JoinPrependFirst([s[0]], rest);
        assert s == [s[0]] + s[1..];
      }
    }
  }

  /** Joining a non-empty list whose first line is non-empty gives a non-empty text. */
  lemma JoinNonEmpty(ls: seq<string>)
    requires |ls| >= 1 && ls[0] != ""
    ensures Join(ls) != "" && Join(ls)[0] == ls[0][0]
  {
  }

  // ---------------------------------------------------------------------------
  // the line filter

  /** Every kept line is a proper clean line. */
  lemma {:induction false} CleanLinesAreClean(ls: seq<string>)
    requires forall l :: l in ls ==> '\n' !in l
    ensures forall l :: l in CleanLines(ls) ==> CleanLine(l)
  {
    if ls != [] {
      assert forall l :: l in ls[1..] ==> l in ls;
      CleanLinesAreClean(ls[1..]);
      assert ls[0] in ls;
      StripNoNewline(ls[0]);
      StripShape(ls[0]);
    }
  }

  /** Lines that are already clean pass the filter unchanged. */
  lemma {:induction false} CleanLinesFixed(ls: seq<string>)
    requires forall l :: l in ls ==> CleanLine(l)
    ensures CleanLines(ls) == ls
  {
    if ls != [] {
      assert ls[0] in ls;
      assert forall l :: l in ls[1..] ==> l in ls;
      CleanLinesFixed(ls[1..]);
      CleanLinesKeep(ls);
      assert [ls[0]] + ls[1..] == ls;
    }
  }

  /** A clean first line is kept as it is. */
  lemma CleanLinesKeep(ls: seq<string>)
    requires ls != [] && CleanLine(ls[0])
    ensures CleanLines(ls) == [ls[0]] + CleanLines(ls[1..])
  {
    StripTrimmed(ls[0]);
  }

  /** The filtered lines, joined, are no longer than the input lines joined. */
  lemma {:induction false} CleanLinesJoinShorter(ls: seq<string>)
    requires |ls| >= 1
    ensures |Join(CleanLines(ls))| <= |Join(ls)|
  {
    var s0 := Strip(ls[0]);
    StripShorter(ls[0]);
    var t := CleanLines(ls[1..]);
    var h: seq<string> := if s0 == "" then [] else [s0];
    assert CleanLines(ls) == h + t;
    if |ls| == 1 {
      assert ls[1..] == [];
      assert t == [];
      assert h + t == h;
      assert |Join(h)| <= |s0|;
    } else {
      CleanLinesJoinShorter(ls[1..]);
      var rest := Join(ls[1..]);
      assert Join(ls) == ls[0] + "\n" + rest;
      assert |Join(ls)| == |ls[0]| + 1 + |rest|;
      if s0 == "" {
        assert h + t == t;
      } else if t == [] {
        assert h + t == [s0];
      } else {
        assert (h + t)[1..] == t;
        assert Join(h + t) == s0 + "\n" + Join(t);
        assert |Join(h + t)| == |s0| + 1 + |Join(t)|;
      }
    }
  }

  // ---------------------------------------------------------------------------
  // clean_text

  /** `clean_text` of the empty string is the empty string. */
  lemma CleanTextEmpty()
    ensures CleanText("") == ""
  {
  }

  /** The lines of `clean_text(x)` are exactly the stripped non-blank lines of `x`, in order;
      the result is empty exactly when `x` has no non-blank line. */
  lemma CleanTextLines(x: string)
    ensures CleanText(x) == "" <==> CleanLines(Split(x)) == []
    ensures CleanText(x) != "" ==> Split(CleanText(x)) == CleanLines(Split(x))
    ensures CleanText(x) != "" ==> forall l :: l in Split(CleanText(x)) ==> CleanLine(l)
  {
    var ls := CleanLines(Split(x));
    SplitPiecesNoNewline(x);
    CleanLinesAreClean(Split(x));
    if x == "" {
      assert Split(x) == [""];
      assert Strip("") == "";
      assert CleanLines([""]) == [] + CleanLines([]);
    } else if ls != [] {
      assert ls[0] in ls;
      JoinNonEmpty(ls);
      SplitJoin(ls);
    }
  }

  /** `clean_text` is idempotent. */
  lemma CleanTextIdempotent(x: string)
    ensures CleanText(CleanText(x)) == CleanText(x)
  {
    CleanTextLines(x);
    var y := CleanText(x);
    if y != "" {
      CleanLinesFixed(Split(y));
      JoinSplit(y);
    }
  }

  /** The output of `clean_text` never holds a blank line: no two adjacent line breaks, and no
      whitespace at either end. */
  lemma CleanTextNoBlankLines(x: string)
    ensures forall k :: 0 <= k < |CleanText(x)| - 1 ==> !(CleanText(x)[k] == '\n' && CleanText(x)[k + 1] == '\n')
    ensures Trimmed(CleanText(x))
  {
    CleanTextLines(x);
    var y := CleanText(x);
    if y != "" {
      var ls := Split(y);
      JoinSplit(y);
      JoinNoBlankLines(ls);
    }
  }

  /** Lines that are all clean join into a text with no blank line and trimmed ends. */
  lemma {:induction false} JoinNoBlankLines(ls: seq<string>)
    requires |ls| >= 1
    requires forall l :: l in ls ==> CleanLine(l)
    ensures forall k :: 0 <= k < |Join(ls)| - 1 ==> !(Join(ls)[k] == '\n' && Join(ls)[k + 1] == '\n')
    ensures Trimmed(Join(ls))
  {
    assert ls[0] in ls;
    if |ls| > 1 {
      assert forall l :: l in ls[1..] ==> l in ls;
      JoinNoBlankLines(ls[1..]);
      var a, t := ls[0], Join(ls[1..]);
      var s := a + "\n" + t;
      assert ls[1] in ls;
      JoinNonEmpty(ls[1..]);
      assert t[0] == ls[1][0];
      forall k | 0 <= k < |s| - 1 ensures !(s[k] == '\n' && s[k + 1] == '\n') {
        if k < |a| {
          assert s[k] == a[k];
        } else if k == |a| {
          assert s[k + 1] == t[0];
        } else {
          assert s[k] == t[k - |a| - 1] && s[k + 1] == t[k - |a|];
        }
      }
      assert s[|s| - 1] == t[|t| - 1];
    }
  }

  /** `clean_text` only removes characters. */
  lemma CleanTextShorter(x: string)
    ensures |CleanText(x)| <= |x|
  {
    if x != "" {
      CleanLinesJoinShorter(Split(x));
      JoinSplit(x);
    }
  }
}
