/**
 * The extension check applied to uploaded and listed files (app.py, `allowed_file`):
 * a name is allowed when it contains a dot and the extension that
 * `os.path.splitext` (POSIX flavour) finds, lower-cased, is one of the allowed set.
 */
module Uploads {
  import opened Text

  const ALLOWED_EXTENSIONS: set<string> := {".csv", ".xlsx", ".xls"}
  const ALLOWED_RESUME_EXTENSIONS: set<string> := {".pdf"}

  /** `s.rfind(c)`: the last position of `c` in `s`, `-1` when there is none. */
  function LastIndex(s: string, c: char): (r: int)
    ensures -1 <= r < |s|
    ensures r >= 0 ==> s[r] == c
    ensures forall j :: r < j < |s| ==> s[j] != c
  {
    if s == [] then -1
    else if s[|s| - 1] == c then |s| - 1
    else LastIndex(s[..|s| - 1], c)
  }

  predicate AllDots(s: string) {
    forall j :: 0 <= j < |s| ==> s[j] == '.'
  }

  /**
   * `os.path.splitext(p)`: the extension starts at the last dot, provided that dot
   * lies after the last `/` and some character other than a dot precedes it in the
   * last path component (so `.bashrc` and `..csv` have no extension).
   */
  function SplitExt(p: string): (r: (string, string))
    ensures r.0 + r.1 == p
  {
    var sep := LastIndex(p, '/');
    var dot := LastIndex(p, '.');
    if dot > sep && !AllDots(p[sep + 1..dot]) then (p[..dot], p[dot..])
    else (p, [])
  }

  function Ext(p: string): string {
    SplitExt(p).1
  }

  /** `allowed_file(filename, allowed_set)`. */
  predicate AllowedFile(name: string, allowed: set<string>) {
    '.' in name && LowerString(Ext(name)) in allowed
  }

  // ------------------------------------------------ lemmas

  /** `LastIndex` is pinned down by its contract. */
  lemma {:induction false} LastIndexIs(s: string, c: char, r: int)
    requires -1 <= r < |s| && (r >= 0 ==> s[r] == c)
    requires forall j :: r < j < |s| ==> s[j] != c
    ensures LastIndex(s, c) == r
  {
    if s != [] && r < |s| - 1 {
      LastIndexIs(s[..|s| - 1], c, r);
    }
  }

  /** When `c` does not occur from position `k` on, its last occurrence is before `k`. */
  lemma {:induction false} LastIndexBelow(s: string, c: char, k: nat)
    requires forall j :: k <= j < |s| ==> s[j] != c
    ensures LastIndex(s, c) < k
  {
    if s != [] && s[|s| - 1] != c {
      LastIndexBelow(s[..|s| - 1], c, k);
    }
  }

  /** The last dot of a stem followed by a dot-led suffix free of further dots is the suffix's dot. */
  lemma DotOfName(stem: string, suffix: string)
    requires suffix != [] && suffix[0] == '.'
    requires forall j :: 1 <= j < |suffix| ==> suffix[j] != '.'
    ensures LastIndex(stem + suffix, '.') == |stem|
  {
    var p := stem + suffix;
    forall j | |stem| < j < |p| ensures p[j] != '.' { assert p[j] == suffix[j - |stem|]; }
    LastIndexIs(p, '.', |stem|);
  }

  /** The last slash of such a name lies before position `k` of the stem when none follows it. */
  lemma SlashOfName(stem: string, suffix: string, k: nat)
    requires forall j :: 1 <= j < |suffix| ==> suffix[j] != '/'
    requires suffix != [] && suffix[0] == '.'
    requires k < |stem| && forall j :: k <= j < |stem| ==> stem[j] != '/'
    ensures LastIndex(stem + suffix, '/') < k
  {
    var p := stem + suffix;
    forall j | k <= j < |p| ensures p[j] != '/' {
      if j < |stem| { assert p[j] == stem[j]; } else { assert p[j] == suffix[j - |stem|]; }
    }
    LastIndexBelow(p, '/', k);
  }

  /**
   * The extension of a name made of a stem and a dot-led suffix free of dots and
   * slashes is that suffix, provided the stem's last component has a character
   * other than a dot (at position `k`).
   */
  lemma ExtOfName(stem: string, suffix: string, k: nat)
    requires suffix != [] && suffix[0] == '.'
    requires forall j :: 1 <= j < |suffix| ==> suffix[j] != '.' && suffix[j] != '/'
    requires k < |stem| && stem[k] != '.' && forall j :: k <= j < |stem| ==> stem[j] != '/'
    ensures Ext(stem + suffix) == suffix
  {
    var p := stem + suffix;
    DotOfName(stem, suffix);
    SlashOfName(stem, suffix, k);
    var sep := LastIndex(p, '/');
    assert p[sep + 1..|stem|][k - sep - 1] == stem[k];
    assert p[|stem|..] == suffix;
  }

  /** An extension, when there is one, is a dot followed by characters other than dots and slashes. */
  lemma ExtShape(p: string)
    ensures var e := Ext(p);
      e == [] || (e[0] == '.' && forall j :: 1 <= j < |e| ==> e[j] != '.' && e[j] != '/')
  {
    var e := Ext(p);
    if e != [] {
      var dot := LastIndex(p, '.');
      assert e == p[dot..];
      forall j | 1 <= j < |e| ensures e[j] != '.' && e[j] != '/' {
        assert e[j] == p[dot + j];
      }
    }
  }

  /**
   * The converse of `ExtOfName`: a name has an extension only when some character of
   * the last path component before the extension's dot is not a dot.
   */
  lemma ExtNeedsStem(p: string)
    ensures Ext(p) != [] ==> exists k :: LastIndex(p, '/') < k < |SplitExt(p).0| && p[k] != '.'
  {
    if Ext(p) != [] {
      var sep := LastIndex(p, '/');
      var dot := LastIndex(p, '.');
      assert dot > sep && !AllDots(p[sep + 1..dot]);
      var k := NotDotIn(p, sep + 1, dot);
    }
  }

  /** A slice that is not all dots has a character other than a dot. */
  lemma NotDotIn(p: string, lo: nat, hi: nat) returns (k: nat)
    requires lo <= hi <= |p| && !AllDots(p[lo..hi])
    ensures lo <= k < hi && p[k] != '.'
  {
    var j :| 0 <= j < hi - lo && p[lo..hi][j] != '.';
    k := lo + j;
  }

  /** A name without a dot has no extension and is its own root. */
  lemma NoExtWithoutDot(p: string)
    requires '.' !in p
    ensures Ext(p) == [] && SplitExt(p).0 == p
  {
    assert LastIndex(p, '.') == -1;
  }

  /**
   * For sets of non-empty extensions, such as the application's two sets, a name is
   * allowed exactly when `splitext` finds an extension whose lower-case form is in the
   * set; the check for a dot in the name never decides on its own.
   */
  lemma AllowedFileSpec(name: string, allowed: set<string>)
    requires [] !in allowed
    ensures AllowedFile(name, allowed) <==> Ext(name) != [] && LowerString(Ext(name)) in allowed
  {
    var e := Ext(name);
    if e != [] {
      var dot := |SplitExt(name).0|;
      assert name[dot] == e[0] == '.';
    }
  }

  /** The application's sets hold only non-empty extensions. */
  lemma AllowedSetsNonEmpty()
    ensures [] !in ALLOWED_EXTENSIONS && [] !in ALLOWED_RESUME_EXTENSIONS
  {
  }

  /** Upper-case extensions are accepted. */
  lemma UpperCaseAccepted(name: string)
    requires name == "contacts.CSV"
    ensures AllowedFile(name, ALLOWED_EXTENSIONS)
  {
    ExtOfName("contacts", ".CSV", 0);
    assert "contacts" + ".CSV" == name;
    assert LowerString(".CSV") == ".csv";
  }

  /** Only the last dot starts the extension. */
  lemma LastDotCounts(name: string)
    requires name == "q1.report.xlsx"
    ensures AllowedFile(name, ALLOWED_EXTENSIONS)
  {
    ExtOfName("q1.report", ".xlsx", 0);
    assert "q1.report" + ".xlsx" == name;
    assert LowerString(".xlsx") == ".xlsx";
  }

  /** A résumé is accepted by the résumé set. */
  lemma ResumeAccepted(name: string)
    requires name == "cv.pdf"
    ensures AllowedFile(name, ALLOWED_RESUME_EXTENSIONS)
  {
    ExtOfName("cv", ".pdf", 0);
    assert "cv" + ".pdf" == name;
    assert LowerString(".pdf") == ".pdf";
  }

  /** The recipient-file set refuses a résumé. */
  lemma ResumeNotRecipientFile(name: string)
    requires name == "cv.pdf"
    ensures !AllowedFile(name, ALLOWED_EXTENSIONS)
  {
    ExtOfName("cv", ".pdf", 0);
    assert "cv" + ".pdf" == name;
    assert LowerString(".pdf") == ".pdf";
  }

  /** A hidden file such as `.csv` has no extension. */
  lemma HiddenFileRefused(name: string)
    requires name == ".csv"
    ensures Ext(name) == [] && !AllowedFile(name, ALLOWED_EXTENSIONS)
  {
    LastIndexIs(name, '.', 0);
    LastIndexIs(name, '/', -1);
  }

  /** Nor has a name whose only characters before the last dot are dots. */
  lemma DotsOnlyRefused(name: string)
    requires name == "..csv"
    ensures Ext(name) == [] && !AllowedFile(name, ALLOWED_EXTENSIONS)
  {
    LastIndexIs(name, '.', 1);
    LastIndexIs(name, '/', -1);
    assert AllDots(name[0..1]);
  }

  /** A dot in a directory name does not make an extension. */
  lemma DirectoryDotRefused(name: string)
    requires name == "lists.csv/contacts"
    ensures !AllowedFile(name, ALLOWED_EXTENSIONS)
  {
    LastIndexIs(name, '/', 9);
    LastIndexIs(name, '.', 5);
  }
}
