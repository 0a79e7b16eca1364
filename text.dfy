/**
 * The pieces of Python's `str` behaviour the application relies on: the whitespace
 * set of `str.isspace()`, ASCII case mapping, `str.strip()`, `str.split()` with no
 * argument and `sep.join(words)`.
 */
module Text {

  /** The characters Python's `str.isspace()` accepts; `strip()` and `split()` use exactly this set. */
  predicate IsSpace(c: char) {
    c == ' ' || '\t' <= c <= '\r' || '\U{1C}' <= c <= '\U{1F}'
    || c == '\U{85}' || c == '\U{A0}' || c == '\U{1680}' || '\U{2000}' <= c <= '\U{200A}'
    || c == '\U{2028}' || c == '\U{2029}' || c == '\U{202F}' || c == '\U{205F}' || c == '\U{3000}'
  }

  predicate IsUpper(c: char) { 'A' <= c <= 'Z' }
  predicate IsLower(c: char) { 'a' <= c <= 'z' }

  /** The class `[a-zA-Z]` of a regular expression. */
  predicate IsLetter(c: char) { IsUpper(c) || IsLower(c) }

  predicate AllLetters(w: string) {
    forall j :: 0 <= j < |w| ==> IsLetter(w[j])
  }

  predicate AllSpace(s: string) {
    forall j :: 0 <= j < |s| ==> IsSpace(s[j])
  }

  function ToUpper(c: char): (u: char)
    ensures IsLetter(c) ==> IsUpper(u) && IsLetter(u)
  {
    if IsLower(c) then (c as int - 32) as char else c
  }

  function ToLower(c: char): (l: char)
    ensures IsLetter(c) ==> IsLower(l) && IsLetter(l)
  {
    if IsUpper(c) then (c as int + 32) as char else c
  }

  /** Python's `str.lower()` restricted to ASCII letters (other characters are kept). */
  function LowerString(s: string): (r: string)
    ensures |r| == |s|
    ensures AllLetters(s) ==> forall j :: 0 <= j < |r| ==> IsLower(r[j])
  {
    if s == [] then [] else [ToLower(s[0])] + LowerString(s[1..])
  }

  /** The letters of `s`, in order. */
  function Letters(s: string): (r: string)
    ensures AllLetters(r) && |r| <= |s|
  {
    if s == [] then []
    else if IsLetter(s[0]) then [s[0]] + Letters(s[1..])
    else Letters(s[1..])
  }

  // ---------------------------------------------------------------- strip

  /** Python's `str.lstrip()`. */
  function TrimLeft(s: string): (r: string)
    ensures |r| <= |s|
  {
    if s != [] && IsSpace(s[0]) then TrimLeft(s[1..]) else s
  }

  /** Python's `str.rstrip()`. */
  function TrimRight(s: string): (r: string)
    ensures |r| <= |s|
  {
    if s != [] && IsSpace(s[|s| - 1]) then TrimRight(s[..|s| - 1]) else s
  }

  /** Python's `str.strip()` (see `StripSpec` for what it yields). */
  function Strip(s: string): (r: string)
    ensures |r| <= |s|
  {
    TrimRight(TrimLeft(s))
  }

  /** `lstrip` removes exactly the leading whitespace: what is left is a suffix that does not start with whitespace. */
  lemma {:induction false} TrimLeftSpec(s: string)
    ensures var r := TrimLeft(s);
      r == s[|s| - |r|..] && (r == [] || !IsSpace(r[0])) && AllSpace(s[..|s| - |r|])
  {
    if s != [] && IsSpace(s[0]) {
      TrimLeftSpec(s[1..]);
      var r := TrimLeft(s);
      assert s[1..][..|s| - 1 - |r|] == s[1..|s| - |r|];
    }
  }

  /** `rstrip` removes exactly the trailing whitespace: what is left is a prefix that does not end with whitespace. */
  lemma {:induction false} TrimRightSpec(s: string)
    ensures var r := TrimRight(s);
      r == s[..|r|] && (r == [] || !IsSpace(r[|r| - 1])) && AllSpace(s[|r|..])
  {
    if s != [] && IsSpace(s[|s| - 1]) {
      var init := s[..|s| - 1];
      TrimRightSpec(init);
      var r := TrimRight(s);
      assert init[..|r|] == s[..|r|];
      assert s[|r|..] == init[|r|..] + [s[|s| - 1]];
    }
  }

  /**
   * `str.strip()`: the result is the slice of `s` left after removing the whitespace
   * at both ends, and it neither starts nor ends with whitespace; it is empty exactly
   * when `s` is all whitespace.
   */
  lemma StripSpec(s: string)
    ensures var r := Strip(s);
      (r == [] || (!IsSpace(r[0]) && !IsSpace(r[|r| - 1]))) &&
      (exists i :: 0 <= i <= |s| - |r| && r == s[i..i + |r|]
                   && AllSpace(s[..i]) && AllSpace(s[i + |r|..])) &&
      (AllSpace(s) <==> r == [])
  {
    var r := Strip(s);
    var i := StripOffset(s);
    StripEnds(s, i, r);
  }

  /** Where the result of `strip()` starts in `s`, with whitespace on both sides of it. */
  lemma StripOffset(s: string) returns (i: nat)
    ensures var r := Strip(s);
      i + |r| <= |s| && r == s[i..i + |r|] && AllSpace(s[..i]) && AllSpace(s[i + |r|..])
      && (r == [] || (!IsSpace(r[0]) && !IsSpace(r[|r| - 1])))
  {
    var l := TrimLeft(s);
    var r := TrimRight(l);
    TrimLeftSpec(s);
    TrimRightSpec(l);
    i := |s| - |l|;
    assert r == l[..|r|] == s[i..i + |r|];
    assert s[i + |r|..] == l[|r|..];
  }

  lemma StripEnds(s: string, i: nat, r: string)
    requires i + |r| <= |s| && r == s[i..i + |r|]
    requires AllSpace(s[..i]) && AllSpace(s[i + |r|..])
    requires r == [] || (!IsSpace(r[0]) && !IsSpace(r[|r| - 1]))
    ensures AllSpace(s) <==> r == []
  {
    if r == [] {
      forall j | 0 <= j < |s| ensures IsSpace(s[j]) {
        if j < i { assert s[j] == s[..i][j]; } else { assert s[j] == s[i..][j - i]; }
      }
    } else {
      assert s[i] == r[0];
    }
  }

  // ---------------------------------------------------------------- split

  /** Length of the run of non-whitespace characters that starts `s`. */
  function WordLen(s: string): (n: nat)
    ensures n <= |s|
    ensures forall j :: 0 <= j < n ==> !IsSpace(s[j])
    ensures n == |s| || IsSpace(s[n])
  {
    if s == [] || IsSpace(s[0]) then 0 else 1 + WordLen(s[1..])
  }

  /** Python's `str.split()` with no argument: the maximal runs of non-whitespace characters. */
  function Words(s: string): (ws: seq<string>)
    ensures forall k :: 0 <= k < |ws| ==> ws[k] != [] && forall j :: 0 <= j < |ws[k]| ==> !IsSpace(ws[k][j])
    decreases |s|
  {
    if s == [] then []
    else if IsSpace(s[0]) then Words(s[1..])
    else
      var n := WordLen(s);
      [s[..n]] + Words(s[n..])
  }

  /** `sep.join(ws)`. */
  function Join(ws: seq<string>, sep: string): string {
    if |ws| == 0 then []
    else if |ws| == 1 then ws[0]
    else ws[0] + sep + Join(ws[1..], sep)
  }

  function Concat(ws: seq<string>): string {
    if ws == [] then [] else ws[0] + Concat(ws[1..])
  }

  // ---------------------------------------------------------------- lemmas

  lemma {:induction false} LowerAppend(a: string, b: string)
    ensures LowerString(a + b) == LowerString(a) + LowerString(b)
  {
    if a != [] {
      assert (a + b)[0] == a[0] && (a + b)[1..] == a[1..] + b;
      LowerAppend(a[1..], b);
      calc {
        LowerString(a + b);
        [ToLower(a[0])] + LowerString(a[1..] + b);
        [ToLower(a[0])] + (LowerString(a[1..]) + LowerString(b));
        ([ToLower(a[0])] + LowerString(a[1..])) + LowerString(b);
      }
    } else {
      assert a + b == b;
    }
  }

  lemma {:induction false} LowerIdempotent(s: string)
    ensures LowerString(LowerString(s)) == LowerString(s)
  {
    if s != [] {
      LowerIdempotent(s[1..]);
    }
  }

  lemma {:induction false} LettersAppend(a: string, b: string)
    ensures Letters(a + b) == Letters(a) + Letters(b)
  {
    if a != [] {
      assert (a + b)[0] == a[0] && (a + b)[1..] == a[1..] + b;
      LettersAppend(a[1..], b);
      if IsLetter(a[0]) {
        calc {
          Letters(a + b);
          [a[0]] + Letters(a[1..] + b);
          [a[0]] + (Letters(a[1..]) + Letters(b));
          ([a[0]] + Letters(a[1..])) + Letters(b);
        }
      }
    } else {
      assert a + b == b;
    }
  }

  lemma {:induction false} LettersOfLetters(w: string)
    requires AllLetters(w)
    ensures Letters(w) == w
  {
    if w != [] {
      LettersOfLetters(w[1..]);
    }
  }

  lemma {:induction false} WordsAllSpace(s: string)
    requires AllSpace(s)
    ensures Words(s) == []
  {
    if s != [] {
      WordsAllSpace(s[1..]);
    }
  }

  lemma {:induction false} WordLenAppendSpace(a: string, sp: string)
    requires AllSpace(sp)
    ensures WordLen(a + sp) == WordLen(a)
  {
    if a != [] && !IsSpace(a[0]) {
      assert (a + sp)[1..] == a[1..] + sp;
      WordLenAppendSpace(a[1..], sp);
    }
  }

  /** Trailing whitespace does not change what `split()` returns. */
  lemma {:induction false} WordsAppendSpace(a: string, sp: string)
    requires AllSpace(sp)
    ensures Words(a + sp) == Words(a)
    decreases |a|
  {
    if a == [] {
      assert a + sp == sp;
      WordsAllSpace(sp);
    } else if IsSpace(a[0]) {
      assert (a + sp)[1..] == a[1..] + sp;
      WordsAppendSpace(a[1..], sp);
    } else {
      WordLenAppendSpace(a, sp);
      var n := WordLen(a);
      assert (a + sp)[..n] == a[..n];
      assert (a + sp)[n..] == a[n..] + sp;
      WordsAppendSpace(a[n..], sp);
    }
  }

  lemma {:induction false} WordsTrimLeft(s: string)
    ensures Words(TrimLeft(s)) == Words(s)
  {
    if s != [] && IsSpace(s[0]) {
      WordsTrimLeft(s[1..]);
    }
  }

  /** `s.strip().split() == s.split()`. */
  lemma WordsStrip(s: string)
    ensures Words(Strip(s)) == Words(s)
  {
    var l := TrimLeft(s);
    var r := TrimRight(l);
    TrimRightSpec(l);
    assert l == r + l[|r|..];
    WordsAppendSpace(r, l[|r|..]);
    WordsTrimLeft(s);
  }
}
