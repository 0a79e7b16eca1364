/**
 * Message templates (app.py): the two built-in templates, the choice between a
 * built-in and the saved template made when a run is started (`start_sending`), and
 * the rendering of a body with `str.format(greeting=...)`.
 */
module Templates {
  import opened Wrappers

  datatype Template = Template(subject: string, body: string)

  /** The saved `current_template` entry of the configuration; each key may be absent. */
  datatype SavedTemplate = SavedTemplate(name: Option<string>, subject: Option<string>, body: Option<string>)

  /** The only replacement field a body may use. */
  const PLACEHOLDER := "{greeting}"

  const DEFAULT_NAME := "default"
  const CONCISE_NAME := "concise"
  const DEFAULT_SUBJECT := "Hello"
  const DEFAULT_BODY := "Hi {greeting}"

  // The built-in bodies are the placeholder followed by a fixed text. The text is
  // written as a chain of short parts so that the verifier can inspect each part
  // on its own.

  const DEFAULT_PART_1 := ",\n\nI hope you're having a productive "
  const DEFAULT_PART_2 := "and meaningful day.\n\nMy name is Akash "
  const DEFAULT_PART_3 := "Sakhare, and I’m currently working as "
  const DEFAULT_PART_4 := "a Junior Software Engineer in "
  const DEFAULT_PART_5 := "Bangalore. I’m reaching out to "
  const DEFAULT_PART_6 := "explore any potential openings for "
  const DEFAULT_PART_7 := "AI/ML or Software Engineer roles at "
  const DEFAULT_PART_8 := "your organization. I’ve been "
  const DEFAULT_PART_9 := "following the impactful work your "
  const DEFAULT_PART_10 := "team delivers, and I’d be excited to "
  const DEFAULT_PART_11 := "contribute my skills and passion to "
  const DEFAULT_PART_12 := "such a forward-thinking environment.\n\n"
  const DEFAULT_PART_13 := "I’ve attached my resume for your "
  const DEFAULT_PART_14 := "review. If there are any current or "
  const DEFAULT_PART_15 := "upcoming opportunities where I could "
  const DEFAULT_PART_16 := "contribute, I’d love to connect and "
  const DEFAULT_PART_17 := "discuss further.\n\nWarm regards,\nAkash "
  const DEFAULT_PART_18 := "Sakhare\n"

  const DEFAULT_TEXT := DEFAULT_PART_1 + DEFAULT_PART_2 + DEFAULT_PART_3 + DEFAULT_PART_4
    + DEFAULT_PART_5 + DEFAULT_PART_6 + DEFAULT_PART_7 + DEFAULT_PART_8 + DEFAULT_PART_9
    + DEFAULT_PART_10 + DEFAULT_PART_11 + DEFAULT_PART_12 + DEFAULT_PART_13
    + DEFAULT_PART_14 + DEFAULT_PART_15 + DEFAULT_PART_16 + DEFAULT_PART_17
    + DEFAULT_PART_18

  const CONCISE_PART_1 := ",\n\nI hope this email finds you well. "
  const CONCISE_PART_2 := "I'm Akash Sakhare, a Junior Software "
  const CONCISE_PART_3 := "Engineer with experience in AI "
  const CONCISE_PART_4 := "development, and I'm interested in "
  const CONCISE_PART_5 := "exploring opportunities with your "
  const CONCISE_PART_6 := "team.\n\nMy key achievements include "
  const CONCISE_PART_7 := "building ML pipelines, developing "
  const CONCISE_PART_8 := "conversational AI, and fine-tuning "
  const CONCISE_PART_9 := "LLMs. I'm passionate about solving "
  const CONCISE_PART_10 := "real-world problems through AI.\n\nI've "
  const CONCISE_PART_11 := "attached my resume for your "
  const CONCISE_PART_12 := "consideration. I'd appreciate the "
  const CONCISE_PART_13 := "opportunity to discuss how my skills "
  const CONCISE_PART_14 := "align with your current needs.\n\nBest "
  const CONCISE_PART_15 := "regards,\nAkash Sakhare\n"

  const CONCISE_TEXT := CONCISE_PART_1 + CONCISE_PART_2 + CONCISE_PART_3 + CONCISE_PART_4
    + CONCISE_PART_5 + CONCISE_PART_6 + CONCISE_PART_7 + CONCISE_PART_8 + CONCISE_PART_9
    + CONCISE_PART_10 + CONCISE_PART_11 + CONCISE_PART_12 + CONCISE_PART_13
    + CONCISE_PART_14 + CONCISE_PART_15

  const DEFAULT_TEMPLATE := Template("Hi, I am Akash Sakhare", PLACEHOLDER + DEFAULT_TEXT)
  const CONCISE_TEMPLATE := Template("AI/Data Science Opportunity", PLACEHOLDER + CONCISE_TEXT)

  /** `get_email_templates()`. */
  function BuiltIns(): map<string, Template> {
    map[DEFAULT_NAME := DEFAULT_TEMPLATE, CONCISE_NAME := CONCISE_TEMPLATE]
  }

  /** Python truthiness of an optional string: present and not empty. */
  predicate Truthy(v: Option<string>) {
    v.Some? && v.value != []
  }

  /** The saved name, `'default'` when none is saved. */
  function SavedName(saved: SavedTemplate): string {
    saved.name.GetOr(DEFAULT_NAME)
  }

  /** A built-in is used when the saved name is one and no body is saved. */
  predicate UsesBuiltIn(saved: SavedTemplate) {
    SavedName(saved) in BuiltIns() && !Truthy(saved.body)
  }

  /** The template chosen in `start_sending`. */
  function Resolve(saved: SavedTemplate): Template {
    if UsesBuiltIn(saved) then BuiltIns()[SavedName(saved)]
    else Template(saved.subject.GetOr(DEFAULT_SUBJECT), saved.body.GetOr(DEFAULT_BODY))
  }

  // ------------------------------------------------ str.format(greeting=...)

  /** A body after parsing: literal characters and occurrences of the `{greeting}` field. */
  datatype Piece = Char(c: char) | Field

  predicate NoBraces(s: string) {
    forall j :: 0 <= j < |s| ==> s[j] != '{' && s[j] != '}'
  }

  function Prepend(p: Piece, rest: Option<seq<Piece>>): Option<seq<Piece>> {
    match rest
    case None => None
    case Some(ps) => Some([p] + ps)
  }

  /**
   * How `str.format` reads a body: `{{` and `}}` stand for one brace, `{greeting}`
   * for the field; any other brace makes it raise, which is `None` here.
   */
  function Parse(body: string): Option<seq<Piece>>
    decreases |body|
  {
    if body == [] then Some([])
    else if body[0] == '{' || body[0] == '}' then
      if |body| >= 2 && body[1] == body[0] then Prepend(Char(body[0]), Parse(body[2..]))
      else if PLACEHOLDER <= body then Prepend(Field, Parse(body[|PLACEHOLDER|..]))
      else None
    else Prepend(Char(body[0]), Parse(body[1..]))
  }

  /** The body text that `Parse` reads back as `ps`: braces escaped, the field written out. */
  function Unparse(ps: seq<Piece>): string {
    if ps == [] then []
    else
      var head := match ps[0]
        case Field => PLACEHOLDER
        case Char(c) => if c == '{' || c == '}' then [c, c] else [c];
      head + Unparse(ps[1..])
  }

  /** The text of `ps` with `greeting` substituted for the field. */
  function Expand(ps: seq<Piece>, greeting: string): string {
    if ps == [] then []
    else
      var head := match ps[0]
        case Field => greeting
        case Char(c) => [c];
      head + Expand(ps[1..], greeting)
  }

  /** `body.format(greeting=greeting)`; `None` where Python raises. */
  function Render(body: string, greeting: string): Option<string> {
    match Parse(body)
    case None => None
    case Some(ps) => Some(Expand(ps, greeting))
  }

  // ------------------------------------------------ lemmas

  /** Every sequence of pieces can be written as a body, and that body reads back as the same pieces. */
  lemma {:induction false} ParseUnparse(ps: seq<Piece>)
    ensures Parse(Unparse(ps)) == Some(ps)
  {
    if ps != [] {
      var rest := Unparse(ps[1..]);
      ParseUnparse(ps[1..]);
      assert ps == [ps[0]] + ps[1..];
      match ps[0]
      case Field =>
        assert Unparse(ps) == PLACEHOLDER + rest;
        assert (PLACEHOLDER + rest)[|PLACEHOLDER|..] == rest;
      case Char(c) =>
        if c == '{' || c == '}' {
          assert Unparse(ps) == [c, c] + rest;
          assert ([c, c] + rest)[2..] == rest;
        } else {
          assert Unparse(ps) == [c] + rest;
          assert ([c] + rest)[1..] == rest;
        }
    }
  }

  /** A body that `str.format` accepts is exactly the writing of the pieces it is read as. */
  lemma {:induction false} UnparseParse(body: string)
    requires Parse(body).Some?
    ensures Unparse(Parse(body).value) == body
    decreases |body|
  {
    if body != [] {
      if body[0] == '{' || body[0] == '}' {
        if |body| >= 2 && body[1] == body[0] {
          UnparseParse(body[2..]);
          assert body == [body[0], body[0]] + body[2..];
        } else {
          UnparseParse(body[|PLACEHOLDER|..]);
          assert body == PLACEHOLDER + body[|PLACEHOLDER|..];
        }
      } else {
        UnparseParse(body[1..]);
        assert body == [body[0]] + body[1..];
      }
    }
  }

  /** Each character of `s` as a literal piece. */
  function Chars(s: string): (ps: seq<Piece>)
    ensures |ps| == |s|
  {
    if s == [] then [] else [Char(s[0])] + Chars(s[1..])
  }

  lemma {:induction false} ParseNoBraces(s: string)
    requires NoBraces(s)
    ensures Parse(s) == Some(Chars(s))
  {
    if s != [] {
      ParseNoBraces(s[1..]);
    }
  }

  lemma {:induction false} ExpandChars(s: string, greeting: string)
    ensures Expand(Chars(s), greeting) == s
  {
    if s != [] {
      var ps := Chars(s);
      assert ps[0] == Char(s[0]) && ps[1..] == Chars(s[1..]);
      ExpandChars(s[1..], greeting);
    }
  }

  /** A body with no braces is sent verbatim, whatever the greeting. */
  lemma RenderVerbatim(body: string, greeting: string)
    requires NoBraces(body)
    ensures Render(body, greeting) == Some(body)
  {
    ParseNoBraces(body);
    ExpandChars(body, greeting);
  }

  /** A body made of the field followed by brace-free text renders as the greeting followed by that text. */
  lemma RenderLeadingGreeting(tail: string, greeting: string)
    requires NoBraces(tail)
    ensures Render(PLACEHOLDER + tail, greeting) == Some(greeting + tail)
  {
    var body := PLACEHOLDER + tail;
    assert body[|PLACEHOLDER|..] == tail;
    ParseNoBraces(tail);
    ExpandChars(tail, greeting);
  }

  lemma NoBracesAppend(a: string, b: string)
    requires NoBraces(a) && NoBraces(b)
    ensures NoBraces(a + b)
  {
    forall j | |a| <= j < |a + b|
      ensures (a + b)[j] != '{' && (a + b)[j] != '}'
    {
      assert (a + b)[j] == b[j - |a|];
    }
  }

  // The parts are checked two at a time to keep each proof small.

  lemma DefaultParts1()
    ensures NoBraces(DEFAULT_PART_1)
    ensures NoBraces(DEFAULT_PART_2)
  {
  }

  lemma DefaultParts2()
    ensures NoBraces(DEFAULT_PART_3)
    ensures NoBraces(DEFAULT_PART_4)
  {
  }

  lemma DefaultParts3()
    ensures NoBraces(DEFAULT_PART_5)
    ensures NoBraces(DEFAULT_PART_6)
  {
  }

  lemma DefaultParts4()
    ensures NoBraces(DEFAULT_PART_7)
    ensures NoBraces(DEFAULT_PART_8)
  {
  }

  lemma DefaultParts5()
    ensures NoBraces(DEFAULT_PART_9)
    ensures NoBraces(DEFAULT_PART_10)
  {
  }

  lemma DefaultParts6()
    ensures NoBraces(DEFAULT_PART_11)
    ensures NoBraces(DEFAULT_PART_12)
  {
  }

  lemma DefaultParts7()
    ensures NoBraces(DEFAULT_PART_13)
    ensures NoBraces(DEFAULT_PART_14)
  {
  }

  lemma DefaultParts8()
    ensures NoBraces(DEFAULT_PART_15)
    ensures NoBraces(DEFAULT_PART_16)
  {
  }

  lemma DefaultParts9()
    ensures NoBraces(DEFAULT_PART_17)
    ensures NoBraces(DEFAULT_PART_18)
  {
  }

  lemma DefaultTextHasNoBraces()
    ensures NoBraces(DEFAULT_TEXT)
  {
    DefaultParts1();
    DefaultParts2();
    DefaultParts3();
    DefaultParts4();
    DefaultParts5();
    DefaultParts6();
    DefaultParts7();
    DefaultParts8();
    DefaultParts9();
    var t := DEFAULT_PART_1;
    NoBracesAppend(t, DEFAULT_PART_2); t := t + DEFAULT_PART_2;
    NoBracesAppend(t, DEFAULT_PART_3); t := t + DEFAULT_PART_3;
    NoBracesAppend(t, DEFAULT_PART_4); t := t + DEFAULT_PART_4;
    NoBracesAppend(t, DEFAULT_PART_5); t := t + DEFAULT_PART_5;
    NoBracesAppend(t, DEFAULT_PART_6); t := t + DEFAULT_PART_6;
    NoBracesAppend(t, DEFAULT_PART_7); t := t + DEFAULT_PART_7;
    NoBracesAppend(t, DEFAULT_PART_8); t := t + DEFAULT_PART_8;
    NoBracesAppend(t, DEFAULT_PART_9); t := t + DEFAULT_PART_9;
    NoBracesAppend(t, DEFAULT_PART_10); t := t + DEFAULT_PART_10;
    NoBracesAppend(t, DEFAULT_PART_11); t := t + DEFAULT_PART_11;
    NoBracesAppend(t, DEFAULT_PART_12); t := t + DEFAULT_PART_12;
    NoBracesAppend(t, DEFAULT_PART_13); t := t + DEFAULT_PART_13;
    NoBracesAppend(t, DEFAULT_PART_14); t := t + DEFAULT_PART_14;
    NoBracesAppend(t, DEFAULT_PART_15); t := t + DEFAULT_PART_15;
    NoBracesAppend(t, DEFAULT_PART_16); t := t + DEFAULT_PART_16;
    NoBracesAppend(t, DEFAULT_PART_17); t := t + DEFAULT_PART_17;
    NoBracesAppend(t, DEFAULT_PART_18); t := t + DEFAULT_PART_18;
    assert t == DEFAULT_TEXT;
  }

  lemma ConciseParts1()
    ensures NoBraces(CONCISE_PART_1)
    ensures NoBraces(CONCISE_PART_2)
  {
  }

  lemma ConciseParts2()
    ensures NoBraces(CONCISE_PART_3)
    ensures NoBraces(CONCISE_PART_4)
  {
  }

  lemma ConciseParts3()
    ensures NoBraces(CONCISE_PART_5)
    ensures NoBraces(CONCISE_PART_6)
  {
  }

  lemma ConciseParts4()
    ensures NoBraces(CONCISE_PART_7)
    ensures NoBraces(CONCISE_PART_8)
  {
  }

  lemma ConciseParts5()
    ensures NoBraces(CONCISE_PART_9)
    ensures NoBraces(CONCISE_PART_10)
  {
  }

  lemma ConciseParts6()
    ensures NoBraces(CONCISE_PART_11)
    ensures NoBraces(CONCISE_PART_12)
  {
  }

  lemma ConciseParts7()
    ensures NoBraces(CONCISE_PART_13)
    ensures NoBraces(CONCISE_PART_14)
  {
  }

  lemma ConciseParts8()
    ensures NoBraces(CONCISE_PART_15)
  {
  }

  lemma ConciseTextHasNoBraces()
    ensures NoBraces(CONCISE_TEXT)
  {
    ConciseParts1();
    ConciseParts2();
    ConciseParts3();
    ConciseParts4();
    ConciseParts5();
    ConciseParts6();
    ConciseParts7();
    ConciseParts8();
    var t := CONCISE_PART_1;
    NoBracesAppend(t, CONCISE_PART_2); t := t + CONCISE_PART_2;
    NoBracesAppend(t, CONCISE_PART_3); t := t + CONCISE_PART_3;
    NoBracesAppend(t, CONCISE_PART_4); t := t + CONCISE_PART_4;
    NoBracesAppend(t, CONCISE_PART_5); t := t + CONCISE_PART_5;
    NoBracesAppend(t, CONCISE_PART_6); t := t + CONCISE_PART_6;
    NoBracesAppend(t, CONCISE_PART_7); t := t + CONCISE_PART_7;
    NoBracesAppend(t, CONCISE_PART_8); t := t + CONCISE_PART_8;
    NoBracesAppend(t, CONCISE_PART_9); t := t + CONCISE_PART_9;
    NoBracesAppend(t, CONCISE_PART_10); t := t + CONCISE_PART_10;
    NoBracesAppend(t, CONCISE_PART_11); t := t + CONCISE_PART_11;
    NoBracesAppend(t, CONCISE_PART_12); t := t + CONCISE_PART_12;
    NoBracesAppend(t, CONCISE_PART_13); t := t + CONCISE_PART_13;
    NoBracesAppend(t, CONCISE_PART_14); t := t + CONCISE_PART_14;
    NoBracesAppend(t, CONCISE_PART_15); t := t + CONCISE_PART_15;
    assert t == CONCISE_TEXT;
  }
  /** The "default" body renders as the greeting followed by the fixed text. */
  lemma DefaultRenders(greeting: string)
    ensures Render(BuiltIns()[DEFAULT_NAME].body, greeting) == Some(greeting + DEFAULT_TEXT)
  {
    DefaultTextHasNoBraces();
    RenderLeadingGreeting(DEFAULT_TEXT, greeting);
  }

  /** The "concise" body renders as the greeting followed by the fixed text. */
  lemma ConciseRenders(greeting: string)
    ensures Render(BuiltIns()[CONCISE_NAME].body, greeting) == Some(greeting + CONCISE_TEXT)
  {
    ConciseTextHasNoBraces();
    RenderLeadingGreeting(CONCISE_TEXT, greeting);
  }

  /** Both built-in bodies open with the greeting and render for every recipient. */
  lemma BuiltInsRender(name: string, greeting: string)
    requires name in BuiltIns()
    ensures exists text :: Render(BuiltIns()[name].body, greeting) == Some(greeting + text)
  {
    if name == DEFAULT_NAME {
      DefaultRenders(greeting);
    } else {
      ConciseRenders(greeting);
    }
  }

  /** With nothing saved, the run uses the built-in "default" template. */
  lemma NothingSavedUsesDefault()
    ensures Resolve(SavedTemplate(None, None, None)) == DEFAULT_TEMPLATE
  {
  }

  /**
   * A built-in is chosen exactly when the saved name (default "default") is built in
   * and no non-empty body is saved; otherwise the saved subject and body are used,
   * defaulting to "Hello" and "Hi {greeting}".
   */
  lemma ResolveChoice(saved: SavedTemplate)
    ensures UsesBuiltIn(saved) ==> Resolve(saved) == BuiltIns()[saved.name.GetOr("default")]
    ensures !UsesBuiltIn(saved) ==>
              Resolve(saved).subject == (if saved.subject.Some? then saved.subject.value else "Hello") &&
              Resolve(saved).body == (if saved.body.Some? then saved.body.value else "Hi {greeting}")
    ensures Truthy(saved.body) ==> Resolve(saved).body == saved.body.value
    ensures SavedName(saved) !in BuiltIns() ==> !UsesBuiltIn(saved)
  {
  }

  /** When a built-in is chosen, a saved subject has no effect. */
  lemma BuiltInIgnoresSavedSubject(saved: SavedTemplate, subject: Option<string>)
    requires UsesBuiltIn(saved)
    ensures Resolve(saved.(subject := subject)) == Resolve(saved)
  {
  }

  /** Brace-free text in front of a body that renders is copied to the front of the result. */
  lemma {:induction false} RenderPrefix(prefix: string, rest: string, greeting: string)
    requires NoBraces(prefix)
    requires Render(rest, greeting).Some?
    ensures Render(prefix + rest, greeting) == Some(prefix + Render(rest, greeting).value)
  {
    if prefix == [] {
      assert prefix + rest == rest;
      assert prefix + Render(rest, greeting).value == Render(rest, greeting).value;
    } else {
      var s := prefix + rest;
      assert s[0] == prefix[0] && s[1..] == prefix[1..] + rest;
      assert NoBraces(prefix[1..]) by {
        forall j | 0 <= j < |prefix[1..]| ensures prefix[1..][j] == prefix[j + 1] {}
      }
      RenderPrefix(prefix[1..], rest, greeting);
      var qs := Parse(s[1..]).value;
      var ps := [Char(prefix[0])] + qs;
      assert Parse(s) == Some(ps);
      assert ps[0] == Char(prefix[0]) && ps[1..] == qs;
      var x := Render(rest, greeting).value;
      assert Expand(qs, greeting) == prefix[1..] + x;
      calc {
        Render(s, greeting);
        Some(Expand(ps, greeting));
        Some([prefix[0]] + Expand(qs, greeting));
        Some([prefix[0]] + (prefix[1..] + x));
        { assert [prefix[0]] + (prefix[1..] + x) == ([prefix[0]] + prefix[1..]) + x;
          assert prefix == [prefix[0]] + prefix[1..]; }
        Some(prefix + x);
      }
    }
  }

  /** The fallback body greets the recipient after "Hi ". */
  lemma RenderDefaultBody(greeting: string)
    ensures Render(DEFAULT_BODY, greeting) == Some("Hi " + greeting)
  {
    assert DEFAULT_BODY == "Hi " + (PLACEHOLDER + []);
    RenderLeadingGreeting([], greeting);
    assert NoBraces("Hi ");
    RenderPrefix("Hi ", PLACEHOLDER + [], greeting);
    assert greeting + [] == greeting;
  }

  /**
   * The resolved body renders for every recipient whenever the saved body is absent
   * or is one that `str.format` accepts.
   */
  lemma ResolvedRenders(saved: SavedTemplate, greeting: string)
    requires saved.body.None? || Parse(saved.body.value).Some?
    ensures Render(Resolve(saved).body, greeting).Some?
  {
    if UsesBuiltIn(saved) {
      BuiltInsRender(SavedName(saved), greeting);
    } else if saved.body.None? {
      RenderDefaultBody(greeting);
    }
  }
}
