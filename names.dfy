/**
 * `extract_name` (app.py): the personalised display name derived from a recipient's
 * address. The text before the first `@` has every character outside `[a-zA-Z]`
 * replaced by a space; the result is stripped, split into words, each word is
 * capitalised and the words are joined by single spaces; an empty result becomes
 * "there".
 */
module Names {
  import opened Text

  /** The name used when the address yields no letters. */
  const FALLBACK := "there"

  /** `email.split('@')[0]`: everything before the first `@`, or all of `email` when it has none. */
  function LocalPart(email: string): (r: string)
    ensures |r| <= |email|
  {
    if email == [] || email[0] == '@' then [] else [email[0]] + LocalPart(email[1..])
  }

  /** `re.sub(r'[^a-zA-Z]', ' ', s)`: letters stay in place, every other character becomes a space. */
  function Blank(s: string): (r: string)
    ensures |r| == |s|
  {
    if s == [] then [] else [if IsLetter(s[0]) then s[0] else ' '] + Blank(s[1..])
  }

  /** A word in the form `str.capitalize()` gives a word of letters: one capital, then lower case. */
  predicate IsCapitalized(w: string) {
    w != [] && IsUpper(w[0]) && forall j :: 1 <= j < |w| ==> IsLower(w[j])
  }

  /** `w.capitalize()` (ASCII): the first character upper case, the others lower case. */
  function Capitalize(w: string): (r: string)
    ensures |r| == |w|
  {
    if w == [] then [] else [ToUpper(w[0])] + LowerString(w[1..])
  }

  function CapitalizeAll(ws: seq<string>): (r: seq<string>)
    ensures |r| == |ws|
  {
    if ws == [] then [] else [Capitalize(ws[0])] + CapitalizeAll(ws[1..])
  }

  /** The local part is a prefix of the address without `@`, followed by the first `@` if there is one. */
  lemma {:induction false} LocalPartSpec(email: string)
    ensures var r := LocalPart(email);
      r <= email && '@' !in r && (|r| == |email| || email[|r|] == '@')
  {
    if email != [] && email[0] != '@' {
      LocalPartSpec(email[1..]);
    }
  }

  /** Each character of `s` is kept when it is a letter and replaced by a space otherwise. */
  lemma {:induction false} BlankSpec(s: string)
    ensures forall j :: 0 <= j < |s| ==> Blank(s)[j] == if IsLetter(s[j]) then s[j] else ' '
  {
    if s != [] {
      BlankSpec(s[1..]);
    }
  }

  /** A word of letters is capitalised, and capitalising changes only the case of letters. */
  lemma CapitalizeSpec(w: string)
    ensures w != [] && AllLetters(w) ==> IsCapitalized(Capitalize(w))
    ensures LowerString(Capitalize(w)) == LowerString(w)
  {
    if w != [] {
      LowerIdempotent(w[1..]);
      assert AllLetters(w) ==> AllLetters(w[1..]);
      var r := Capitalize(w);
      assert r[1..] == LowerString(w[1..]);
    }
  }

  lemma {:induction false} CapitalizeAllSpec(ws: seq<string>)
    ensures forall k :: 0 <= k < |ws| ==> CapitalizeAll(ws)[k] == Capitalize(ws[k])
  {
    if ws != [] {
      CapitalizeAllSpec(ws[1..]);
    }
  }

  /** `extract_name(email)`. */
  function ExtractName(email: string): (r: string)
    ensures r != []
  {
    var name := Join(CapitalizeAll(Words(Strip(Blank(LocalPart(email))))), " ");
    if name == [] then FALLBACK else name
  }

  /**
   * What a name built from the address looks like: capitalised words of ASCII letters
   * separated by single spaces, with no space at either end.
   */
  predicate IsDisplayName(r: string) {
    r != [] && IsUpper(r[0]) && r[|r| - 1] != ' ' &&
    forall k :: 0 < k < |r| ==>
      if r[k] == ' ' then r[k - 1] != ' '
      else if r[k - 1] == ' ' then IsUpper(r[k])
      else IsLower(r[k])
  }

  // ------------------------------------------------ an independent description

  /** Length of the run of letters that starts `s`. */
  function LetterLen(s: string): (n: nat)
    ensures n <= |s| && AllLetters(s[..n])
    ensures n == |s| || !IsLetter(s[n])
  {
    if s == [] || !IsLetter(s[0]) then 0 else 1 + LetterLen(s[1..])
  }

  /** The maximal runs of ASCII letters in `s`, in order. */
  function LetterRuns(s: string): (rs: seq<string>)
    ensures forall k :: 0 <= k < |rs| ==> rs[k] != [] && AllLetters(rs[k])
    decreases |s|
  {
    if s == [] then []
    else if !IsLetter(s[0]) then LetterRuns(s[1..])
    else
      var n := LetterLen(s);
      [s[..n]] + LetterRuns(s[n..])
  }

  // ------------------------------------------------ lemmas

  lemma {:induction false} WordLenBlank(s: string)
    ensures WordLen(Blank(s)) == LetterLen(s)
  {
    if s != [] && IsLetter(s[0]) {
      assert Blank(s)[1..] == Blank(s[1..]);
      WordLenBlank(s[1..]);
    }
  }

  /** Replacing non-letters by spaces and splitting yields exactly the runs of letters. */
  lemma {:induction false} WordsOfBlank(s: string)
    ensures Words(Blank(s)) == LetterRuns(s)
    decreases |s|
  {
    if s == [] {
    } else if !IsLetter(s[0]) {
      assert Blank(s)[1..] == Blank(s[1..]);
      WordsOfBlank(s[1..]);
    } else {
      WordLenBlank(s);
      var n := LetterLen(s);
      BlankSpec(s);
      BlankSpec(s[n..]);
      assert Blank(s)[..n] == s[..n];
      assert Blank(s)[n..] == Blank(s[n..]);
      WordsOfBlank(s[n..]);
    }
  }

  lemma {:induction false} LettersSplit(s: string, n: nat)
    requires n <= |s| && AllLetters(s[..n])
    ensures Letters(s) == s[..n] + Letters(s[n..])
  {
    if n > 0 {
      assert s[1..][..n - 1] == s[1..n];
      assert s[1..][n - 1..] == s[n..];
      LettersSplit(s[1..], n - 1);
      assert s[..n] == [s[0]] + s[1..n];
    }
  }

  /** The runs hold every letter of `s`, in order, and nothing else. */
  lemma {:induction false} RunsConcat(s: string)
    ensures Concat(LetterRuns(s)) == Letters(s)
    decreases |s|
  {
    if s != [] {
      if !IsLetter(s[0]) {
        RunsConcat(s[1..]);
      } else {
        var n := LetterLen(s);
        RunsConcat(s[n..]);
        LettersSplit(s, n);
      }
    }
  }

  lemma RunsEmpty(s: string)
    ensures LetterRuns(s) == [] <==> Letters(s) == []
  {
    RunsConcat(s);
  }

  lemma {:induction false} JoinEmpty(ws: seq<string>)
    requires forall k :: 0 <= k < |ws| ==> ws[k] != []
    ensures Join(ws, " ") == [] <==> ws == []
  {
  }

  lemma CapitalizedDisplay(w: string)
    requires IsCapitalized(w)
    ensures IsDisplayName(w)
  {
  }

  lemma DisplayJoin(a: string, b: string)
    requires IsCapitalized(a) && IsDisplayName(b)
    ensures IsDisplayName(a + " " + b)
  {
    var r := a + " " + b;
    forall k | 0 < k < |r|
      ensures if r[k] == ' ' then r[k - 1] != ' '
              else if r[k - 1] == ' ' then IsUpper(r[k])
              else IsLower(r[k])
    {
      if k < |a| {
        assert r[k] == a[k] && r[k - 1] == a[k - 1];
      } else if k == |a| {
        assert r[k] == ' ' && r[k - 1] == a[|a| - 1];
      } else if k == |a| + 1 {
        assert r[k] == b[0] && r[k - 1] == ' ';
      } else {
        assert r[k] == b[k - |a| - 1] && r[k - 1] == b[k - |a| - 2];
      }
    }
    assert r[|r| - 1] == b[|b| - 1];
  }

  lemma {:induction false} JoinDisplayName(ws: seq<string>)
    requires |ws| > 0
    requires forall k :: 0 <= k < |ws| ==> IsCapitalized(ws[k])
    ensures IsDisplayName(Join(ws, " "))
  {
    if |ws| == 1 {
      CapitalizedDisplay(ws[0]);
    } else {
      JoinDisplayName(ws[1..]);
      DisplayJoin(ws[0], Join(ws[1..], " "));
    }
  }

  lemma {:induction false} LettersOfJoin(ws: seq<string>)
    requires forall k :: 0 <= k < |ws| ==> AllLetters(ws[k])
    ensures Letters(Join(ws, " ")) == Concat(ws)
  {
    if |ws| == 1 {
      LettersOfLetters(ws[0]);
      assert Concat(ws) == ws[0] + Concat([]);
    } else if |ws| > 1 {
      LettersOfJoin(ws[1..]);
      LettersOfLetters(ws[0]);
      LettersAppend(ws[0], " ");
      LettersAppend(ws[0] + " ", Join(ws[1..], " "));
    }
  }

  lemma {:induction false} LowerConcatCapitalized(ws: seq<string>)
    ensures LowerString(Concat(CapitalizeAll(ws))) == LowerString(Concat(ws))
  {
    if ws != [] {
      LowerConcatCapitalized(ws[1..]);
      CapitalizeSpec(ws[0]);
      assert CapitalizeAll(ws)[1..] == CapitalizeAll(ws[1..]);
      LowerAppend(Capitalize(ws[0]), Concat(CapitalizeAll(ws[1..])));
      LowerAppend(ws[0], Concat(ws[1..]));
    }
  }

  /**
   * `extract_name` is "there" when the local part has no ASCII letter, and otherwise
   * the capitalised runs of letters of the local part joined by single spaces.
   */
  lemma ExtractNameRuns(email: string)
    ensures var runs := LetterRuns(LocalPart(email));
            ExtractName(email) == if runs == [] then FALLBACK else Join(CapitalizeAll(runs), " ")
  {
    var runs := LetterRuns(LocalPart(email));
    WordsStrip(Blank(LocalPart(email)));
    WordsOfBlank(LocalPart(email));
    CapitalizeAllSpec(runs);
    JoinEmpty(CapitalizeAll(runs));
  }

  lemma CapitalizeRuns(runs: seq<string>)
    requires forall k :: 0 <= k < |runs| ==> runs[k] != [] && AllLetters(runs[k])
    ensures forall k :: 0 <= k < |runs| ==> IsCapitalized(CapitalizeAll(runs)[k])
  {
    CapitalizeAllSpec(runs);
    forall k | 0 <= k < |runs|
      ensures IsCapitalized(CapitalizeAll(runs)[k])
    {
      CapitalizeSpec(runs[k]);
    }
  }

  lemma CapitalizedLetters(ws: seq<string>)
    requires forall k :: 0 <= k < |ws| ==> IsCapitalized(ws[k])
    ensures forall k :: 0 <= k < |ws| ==> AllLetters(ws[k])
  {
  }

  /** The fallback is used exactly when the text before the first `@` has no ASCII letter. */
  lemma ExtractNameFallback(email: string)
    ensures ExtractName(email) == FALLBACK <==> Letters(LocalPart(email)) == []
  {
    var local := LocalPart(email);
    var runs := LetterRuns(local);
    ExtractNameRuns(email);
    RunsEmpty(local);
    if runs != [] {
      var name := Join(CapitalizeAll(runs), " ");
      CapitalizeRuns(runs);
      JoinDisplayName(CapitalizeAll(runs));
      assert ExtractName(email) == name;
      assert IsUpper(name[0]) && !IsUpper(FALLBACK[0]);
    }
  }

  /** A name built from letters is capitalised words joined by single spaces. */
  lemma ExtractNameShape(email: string)
    requires Letters(LocalPart(email)) != []
    ensures IsDisplayName(ExtractName(email))
  {
    var runs := LetterRuns(LocalPart(email));
    ExtractNameRuns(email);
    RunsEmpty(LocalPart(email));
    CapitalizeRuns(runs);
    JoinDisplayName(CapitalizeAll(runs));
  }

  /** Up to case, the name holds exactly the letters of the local part, in order. */
  lemma ExtractNameLetters(email: string)
    requires Letters(LocalPart(email)) != []
    ensures LowerString(Letters(ExtractName(email))) == LowerString(Letters(LocalPart(email)))
  {
    var local := LocalPart(email);
    var runs := LetterRuns(local);
    var caps := CapitalizeAll(runs);
    ExtractNameRuns(email);
    RunsEmpty(local);
    assert ExtractName(email) == Join(caps, " ");
    CapitalizeRuns(runs);
    CapitalizedLetters(caps);
    LettersOfJoin(caps);
    LowerConcatCapitalized(runs);
    RunsConcat(local);
  }

  /** The local part is pinned down by its contract: the prefix up to the first `@`. */
  lemma {:induction false} LocalPartIs(email: string, n: nat)
    requires n <= |email| && '@' !in email[..n] && (n == |email| || email[n] == '@')
    ensures LocalPart(email) == email[..n]
  {
    if n > 0 {
      assert email[0] == email[..n][0];
      assert email[1..][..n - 1] == email[1..n];
      LocalPartIs(email[1..], n - 1);
      assert email[..n] == [email[0]] + email[1..n];
    }

  }

  lemma {:induction false} LetterLenIs(s: string, n: nat)
    requires n <= |s| && AllLetters(s[..n]) && (n == |s| || !IsLetter(s[n]))
    ensures LetterLen(s) == n
  {
    if n > 0 {
      assert IsLetter(s[..n][0]);
      assert s[1..][..n - 1] == s[1..n];
      LetterLenIs(s[1..], n - 1);
    }

  }

  lemma RunsOfWord(s: string)
    requires s != [] && AllLetters(s)
    ensures LetterRuns(s) == [s]
  {
    LetterLenIs(s, |s|);
    assert s[..|s|] == s && s[|s|..] == [];
  }

  lemma RunsAfterSeparator(s: string)
    requires s != [] && !IsLetter(s[0])
    ensures LetterRuns(s) == LetterRuns(s[1..])
  {
  }

  lemma RunsJohnDoe(a: string)
    requires a == "john.doe"
    ensures LetterRuns(a) == ["john", "doe"]
  {
    LetterLenIs(a, 4);
    assert a[..4] == "john" && a[4..][1..] == "doe";
    RunsOfWord("doe");
  }

  lemma RunsDigits(b: string)
    requires b == "a1b2"
    ensures LetterRuns(b) == ["a", "b"]
  {
    LetterLenIs(b, 1);
    assert b[..1] == "a" && b[1..] == "1b2" && b[1..][1..] == "b2";
    RunsAfterSeparator(b[1..]);
    LetterLenIs("b2", 1);
    assert "b2"[..1] == "b" && "b2"[1..] == "2";
    assert LetterRuns("2") == LetterRuns([]);
  }

  lemma CapitalizeJohn()
    ensures Capitalize("john") == "John"
  {
    assert "john"[1..] == "ohn" && "ohn"[1..] == "hn" && "hn"[1..] == "n" && "n"[1..] == [];
  }

  lemma CapitalizeDoe()
    ensures Capitalize("doe") == "Doe"
  {
    assert "doe"[1..] == "oe" && "oe"[1..] == "e" && "e"[1..] == [];
  }

  lemma CapitalizeLetters()
    ensures Capitalize("a") == "A" && Capitalize("b") == "B"
  {
    assert "a"[1..] == [] && "b"[1..] == [];
  }

  lemma JoinExamples()
    ensures Join(["John", "Doe"], " ") == "John Doe"
    ensures Join(["A", "B"], " ") == "A B"
  {
    assert ["John", "Doe"][1..] == ["Doe"];
    assert ["A", "B"][1..] == ["B"];
  }

  lemma CapitalizeExamples()
    ensures Join(CapitalizeAll(["john", "doe"]), " ") == "John Doe"
    ensures Join(CapitalizeAll(["a", "b"]), " ") == "A B"
  {
    CapitalizeJohn();
    CapitalizeDoe();
    CapitalizeLetters();
    JoinExamples();
    assert ["john", "doe"][1..] == ["doe"];
    assert ["a", "b"][1..] == ["b"];
    assert CapitalizeAll(["john", "doe"]) == ["John", "Doe"];
    assert CapitalizeAll(["a", "b"]) == ["A", "B"];
  }

  lemma JohnDoe(email: string)
    requires email == "john.doe@x.com"
    ensures ExtractName(email) == "John Doe"
  {
    LocalPartIs(email, 8);
    assert email[..8] == "john.doe";
    RunsJohnDoe(email[..8]);
    ExtractNameRuns(email);
    CapitalizeExamples();
  }

  lemma Digits(email: string)
    requires email == "a1b2@x.com"
    ensures ExtractName(email) == "A B"
  {
    LocalPartIs(email, 4);
    assert email[..4] == "a1b2";
    RunsDigits(email[..4]);
    ExtractNameRuns(email);
    CapitalizeExamples();
  }

  /**
   * Worked examples: a separator and a digit each become a word
   * break, and an address with nothing before the `@` gets the fallback.
   */
  lemma ExtractNameExamples()
    ensures ExtractName("john.doe@x.com") == "John Doe"
    ensures ExtractName("a1b2@x.com") == "A B"
    ensures ExtractName("@x.com") == FALLBACK
  {
    JohnDoe("john.doe@x.com");
    Digits("a1b2@x.com");
    LocalPartIs("@x.com", 0);
    ExtractNameRuns("@x.com");
  }
}
