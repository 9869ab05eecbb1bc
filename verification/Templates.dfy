/** `{{word}}` placeholders: the scan that a global regular expression replace makes, and the three renderers built on
    it. */
module Templates {
  import opened Options

  predicate IsWordChar(c: char) { 'a' <= c <= 'z' || 'A' <= c <= 'Z' || '0' <= c <= '9' || c == '_' }

  predicate IsWord(s: string) { s != [] && forall i :: 0 <= i < |s| ==> IsWordChar(s[i]) }

  function Braced(key: string): string { "{{" + key + "}}" }

  /** `\w`, by code points: the digits, the Latin letters of both cases, and the underscore. */
  lemma WordCharsAre(c: char)
    ensures
      var n := c as int;
      IsWordChar(c) <==> 48 <= n < 58 || 65 <= n < 91 || n == 95 || 97 <= n < 123
  {
  }

  // ---------- The scanner ----------

  datatype Token = Literal(c: char) | Placeholder(key: string)

  function Text(t: Token): string {
    match t
    case Literal(c) => [c]
    case Placeholder(key) => Braced(key)
  }

  function Join(tokens: seq<Token>): string {
    if tokens == [] then "" else Text(tokens[0]) + Join(tokens[1..])
  }

  /** The longest run of word characters at the front. */
  function WordPrefix(s: string): (w: string)
    ensures w <= s
    ensures forall i :: 0 <= i < |w| ==> IsWordChar(w[i])
    ensures |w| < |s| ==> !IsWordChar(s[|w|])
  {
    if s == [] || !IsWordChar(s[0]) then "" else [s[0]] + WordPrefix(s[1..])
  }

  /** The match of the expression at the front of the string, if there is one. */
  function MatchAt(s: string): (word: Option<string>)
    ensures word.Some? ==> |word.value| + 4 <= |s|
  {
    if |s| < 2 || s[..2] != "{{" then None else
      var key := WordPrefix(s[2..]);
      if key != [] && "}}" <= s[2 + |key|..] then Some(key) else None
  }

  function Scan(s: string): seq<Token>
    decreases |s|
  {
    if s == [] then [] else
      match MatchAt(s)
      case Some(key) => [Placeholder(key)] + Scan(s[|key| + 4..])
      case None => [Literal(s[0])] + Scan(s[1..])
  }

  lemma {:induction false} WordPrefixIs(s: string, key: string)
    requires key < s && !IsWordChar(s[|key|]) && forall i :: 0 <= i < |key| ==> IsWordChar(key[i])
    ensures WordPrefix(s) == key
  {
    if key != [] {
      WordPrefixIs(s[1..], key[1..]);
    }
  }

  /** A string starts with a match of a key exactly when it starts with that word in double braces. */
  lemma MatchExact(s: string, key: string)
    ensures MatchAt(s) == Some(key) <==> IsWord(key) && Braced(key) <= s
  {
    var n := |key|;
    if IsWord(key) && Braced(key) <= s {
      assert s[..2] == Braced(key)[..2] == "{{";
      assert s[2..][..n] == Braced(key)[2..][..n] == key;
      assert s[n + 2..][..2] == Braced(key)[n + 2..][..2] == "}}";
      WordPrefixIs(s[2..], key);
    }
  }

  /** A reading of a string: its tokens join to it, placeholders hold words, and no literal stands where a placeholder
      begins. */
  predicate Reading(s: string, tokens: seq<Token>)
    decreases |tokens|
  {
    if tokens == [] then s == "" else
      match tokens[0]
      case Literal(c) =>
        s != "" && s[0] == c && MatchAt(s).None? && Reading(s[1..], tokens[1..])
      case Placeholder(key) =>
        IsWord(key) && Braced(key) <= s && Reading(s[|Braced(key)|..], tokens[1..])
  }

  function FirstToken(s: string): Token
    requires s != ""
  {
    if MatchAt(s).Some? then Placeholder(MatchAt(s).value) else Literal(s[0])
  }

  lemma FirstTokenFits(s: string)
    requires s != ""
    ensures Text(FirstToken(s)) <= s && Text(FirstToken(s)) != ""
  {
    if MatchAt(s).Some? {
      MatchExact(s, MatchAt(s).value);
    }
  }

  lemma ReadingUnfolds(s: string, tokens: seq<Token>)
    requires s != "" && tokens != [] && Text(FirstToken(s)) <= s
    ensures Reading(s, tokens) <==> tokens[0] == FirstToken(s) && Reading(s[|Text(FirstToken(s))|..], tokens[1..])
  {
    match tokens[0]
    case Literal(c) =>
    case Placeholder(key) => MatchExact(s, key);
  }

  /** The scanner finds the only reading of a template, and it loses nothing. */
  lemma {:induction false} ScanIsTheReading(s: string, tokens: seq<Token>)
    ensures Reading(s, tokens) <==> tokens == Scan(s)
    decreases |s|
  {
    if s != "" && tokens != [] {
      var first, text := FirstToken(s), Text(FirstToken(s));
      FirstTokenFits(s);
      ScanIsTheReading(s[|text|..], tokens[1..]);
      ReadingUnfolds(s, tokens);
      assert tokens == [tokens[0]] + tokens[1..];
      assert Scan(s) == [first] + Scan(s[|text|..]);
    }
  }

  lemma ReadingStep(s: string, tokens: seq<Token>)
    requires Reading(s, tokens) && tokens != []
    ensures Text(tokens[0]) <= s && Reading(s[|Text(tokens[0])|..], tokens[1..])
  {
  }

  lemma PrefixJoins(s: string, prefix: string)
    requires prefix <= s
    ensures prefix + s[|prefix|..] == s
  {
  }

  lemma {:induction false} ReadingJoins(s: string, tokens: seq<Token>)
    requires Reading(s, tokens)
    ensures Join(tokens) == s
    decreases |tokens|
  {
    if tokens != [] {
      ReadingStep(s, tokens);
      ReadingJoins(s[|Text(tokens[0])|..], tokens[1..]);
      PrefixJoins(s, Text(tokens[0]));
    }
  }

  lemma ScanJoins(s: string)
    ensures Join(Scan(s)) == s
  {
    ScanIsTheReading(s, Scan(s));
    ReadingJoins(s, Scan(s));
  }

  // ---------- The renderers ----------

  /** A property value as the renderers see it. */
  datatype Value = Str(s: string) | Null | Undefined

  /** A record and what it inherits: every object answers to words like `constructor`. */
  datatype Vars = Vars(own: map<string, Value>, inherited: map<string, string>)

  /** `vars[key]`. */
  function Lookup(v: Vars, key: string): Value {
    if key in v.own then v.own[key] else if key in v.inherited then Str(v.inherited[key]) else Undefined
  }

  function Written(v: Value): string {
    match v
    case Str(s) => s
    case Null => "null"
    case Undefined => "undefined"
  }

  /** TemplateRendererService: `key in vars ? vars[key] : match`. */
  function ServiceValue(v: Vars, key: string): string {
    if key in v.own || key in v.inherited then Written(Lookup(v, key)) else Braced(key)
  }

  /** The campaign worker: `vars[key] ?? match`. */
  function WorkerValue(v: Vars, key: string): string {
    match Lookup(v, key)
    case Str(s) => s
    case _ => Braced(key)
  }

  /** The workflow processor: `String(vars[key] ?? ...)` with the braces put back. */
  function WorkflowValue(v: Vars, key: string): string {
    var value := match Lookup(v, key) case Str(s) => Str(s) case _ => Str("{{" + key + "}}");
    Written(value)
  }

  function Fill(tokens: seq<Token>, value: string -> string): string {
    if tokens == [] then "" else
      (match tokens[0]
       case Literal(c) => [c]
       case Placeholder(key) => value(key)) + Fill(tokens[1..], value)
  }

  function Render(template: string, value: string -> string): string { Fill(Scan(template), value) }

  lemma {:induction false} FillCong(tokens: seq<Token>, f: string -> string, g: string -> string)
    requires forall t :: t in tokens && t.Placeholder? ==> f(t.key) == g(t.key)
    ensures Fill(tokens, f) == Fill(tokens, g)
  {
    if tokens != [] {
      assert forall t :: t in tokens[1..] ==> t in tokens;
      FillCong(tokens[1..], f, g);
    }
  }

  lemma {:induction false} FillBraced(tokens: seq<Token>, f: string -> string)
    requires forall t :: t in tokens && t.Placeholder? ==> f(t.key) == Braced(t.key)
    ensures Fill(tokens, f) == Join(tokens)
  {
    if tokens != [] {
      assert forall t :: t in tokens[1..] ==> t in tokens;
      FillBraced(tokens[1..], f);
    }
  }

  /** A template none of whose placeholders has a value is rendered unchanged, by each renderer. */
  lemma UnknownKeysStay(template: string, v: Vars)
    requires forall t :: t in Scan(template) && t.Placeholder? ==> t.key !in v.own && t.key !in v.inherited
    ensures Render(template, key => ServiceValue(v, key)) == template
    ensures Render(template, key => WorkerValue(v, key)) == template
    ensures Render(template, key => WorkflowValue(v, key)) == template
  {
    ScanJoins(template);
    FillBraced(Scan(template), key => ServiceValue(v, key));
    FillBraced(Scan(template), key => WorkerValue(v, key));
    FillBraced(Scan(template), key => WorkflowValue(v, key));
  }

  /** The campaign worker and the workflow processor render alike on every template and record. */
  lemma WorkersAgree(template: string, v: Vars)
    ensures Render(template, key => WorkerValue(v, key)) == Render(template, key => WorkflowValue(v, key))
  {
    FillCong(Scan(template), key => WorkerValue(v, key), key => WorkflowValue(v, key));
  }

  predicate OwnNullish(v: Vars, key: string) { key in v.own && !v.own[key].Str? }

  lemma SameHead(head: string, a: string, b: string)
    ensures head + a == head + b ==> a == b
  {
    assert (head + a)[|head|..] == a && (head + b)[|head|..] == b;
  }

  lemma {:induction false} FillsDiffer(tokens: seq<Token>, v: Vars)
    requires exists t :: t in tokens && t.Placeholder? && OwnNullish(v, t.key)
    ensures Fill(tokens, key => ServiceValue(v, key)) != Fill(tokens, key => WorkerValue(v, key))
  {
    var f, g := key => ServiceValue(v, key), key => WorkerValue(v, key);
    if tokens[0].Placeholder? && OwnNullish(v, tokens[0].key) {
      assert Fill(tokens, g)[0] == '{';
      assert Fill(tokens, f)[0] == 'n' || Fill(tokens, f)[0] == 'u';
    } else {
      var t :| t in tokens && t.Placeholder? && OwnNullish(v, t.key);
      assert t in tokens[1..];
      FillsDiffer(tokens[1..], v);
      var head := if tokens[0].Literal? then [tokens[0].c] else f(tokens[0].key);
      assert Fill(tokens, f) == head + Fill(tokens[1..], f) && Fill(tokens, g) == head + Fill(tokens[1..], g);
      SameHead(head, Fill(tokens[1..], f), Fill(tokens[1..], g));
    }
  }

  /** The service renders differently from them exactly when the template uses a key that the record has with a null or
      undefined value: the service writes the word, the workers keep the placeholder. */
  lemma ServiceAgreesIff(template: string, v: Vars)
    ensures Render(template, key => ServiceValue(v, key)) == Render(template, key => WorkerValue(v, key))
       <==> forall t :: t in Scan(template) && t.Placeholder? ==> !OwnNullish(v, t.key)
  {
    if forall t :: t in Scan(template) && t.Placeholder? ==> !OwnNullish(v, t.key) {
      FillCong(Scan(template), key => ServiceValue(v, key), key => WorkerValue(v, key));
    } else {
      FillsDiffer(Scan(template), v);
    }
  }

  // ---------- One pass ----------

  lemma {:induction false} FillConcat(a: seq<Token>, b: seq<Token>, value: string -> string)
    ensures Fill(a + b, value) == Fill(a, value) + Fill(b, value)
  {
    if a == [] {
      assert a + b == b;
    } else {
      assert (a + b)[1..] == a[1..] + b;
      FillConcat(a[1..], b, value);
    }
  }

  /** A substituted value stands in the result as it is, whatever it contains, between what the tokens before and after
      it become. */
  lemma ValuesAreNotRescanned(template: string, value: string -> string, i: nat)
    requires i < |Scan(template)| && Scan(template)[i].Placeholder?
    ensures
      var tokens := Scan(template);
      Render(template, value) == Fill(tokens[..i], value) + value(tokens[i].key) + Fill(tokens[i + 1..], value)
  {
    var tokens := Scan(template);
    assert tokens == tokens[..i] + ([tokens[i]] + tokens[i + 1..]);
    FillConcat(tokens[..i], [tokens[i]] + tokens[i + 1..], value);
    FillConcat([tokens[i]], tokens[i + 1..], value);
    assert Fill([tokens[i]], value) == value(tokens[i].key) + Fill([], value);
  }

  /** What a placeholder becomes: a text value is written as it is by all three renderers, the record's own before an
      inherited one; a null or undefined one is written as a word by the service and left as a placeholder by the
      workers. */
  lemma KnownValuesAreWritten(v: Vars, key: string)
    ensures key in v.own && v.own[key].Str? ==>
      ServiceValue(v, key) == WorkerValue(v, key) == WorkflowValue(v, key) == v.own[key].s
    ensures key !in v.own && key in v.inherited ==>
      ServiceValue(v, key) == WorkerValue(v, key) == WorkflowValue(v, key) == v.inherited[key]
    ensures key in v.own && !v.own[key].Str? ==>
      && ServiceValue(v, key) == (if v.own[key] == Null then "null" else "undefined")
      && WorkerValue(v, key) == WorkflowValue(v, key) == "{{" + key + "}}"
    ensures key !in v.own && key !in v.inherited ==>
      ServiceValue(v, key) == WorkerValue(v, key) == WorkflowValue(v, key) == "{{" + key + "}}"
  {
  }

  /** So in every template a placeholder with a text value reads as that text, whichever renderer is used, between what
      stands before and after it. */
  lemma KnownPlaceholderIsReplaced(template: string, v: Vars, i: nat)
    requires i < |Scan(template)| && Scan(template)[i].Placeholder?
    requires var key := Scan(template)[i].key; key in v.own && v.own[key].Str?
    ensures
      var tokens := Scan(template);
      var text := v.own[tokens[i].key].s;
      var service, worker, workflow := k => ServiceValue(v, k), k => WorkerValue(v, k), k => WorkflowValue(v, k);
      && Render(template, service) == Fill(tokens[..i], service) + text + Fill(tokens[i + 1..], service)
      && Render(template, worker) == Fill(tokens[..i], worker) + text + Fill(tokens[i + 1..], worker)
      && Render(template, workflow) == Fill(tokens[..i], workflow) + text + Fill(tokens[i + 1..], workflow)
  {
    KnownValuesAreWritten(v, Scan(template)[i].key);
    ValuesAreNotRescanned(template, k => ServiceValue(v, k), i);
    ValuesAreNotRescanned(template, k => WorkerValue(v, k), i);
    ValuesAreNotRescanned(template, k => WorkflowValue(v, k), i);
  }

  function Literals(s: string): seq<Token> {
    if s == "" then [] else [Literal(s[0])] + Literals(s[1..])
  }

  lemma {:induction false} ScanLiterals(s: string, rest: string)
    requires '{' !in s
    ensures Scan(s + rest) == Literals(s) + Scan(rest)
  {
    if s == "" {
      assert s + rest == rest && Literals(s) + Scan(rest) == Scan(rest);
    } else {
      assert (s + rest)[1..] == s[1..] + rest && (s + rest)[0] == s[0] != '{';
      ScanLiterals(s[1..], rest);
      assert |s + rest| >= 2 ==> (s + rest)[..2][0] == s[0];
      assert MatchAt(s + rest).None?;
      assert Literals(s) + Scan(rest) == [Literal(s[0])] + (Literals(s[1..]) + Scan(rest));
    }
  }

  lemma {:induction false} FillLiterals(s: string, value: string -> string)
    ensures Fill(Literals(s), value) == s
  {
    if s != "" {
      FillLiterals(s[1..], value);
    }
  }

  /** Literal text is never changed. */
  lemma LiteralsStay(s: string, value: string -> string)
    requires '{' !in s
    ensures Render(s, value) == s
  {
    assert s + "" == s && Literals(s) + [] == Literals(s);
    ScanLiterals(s, "");
    FillLiterals(s, value);
  }

  // ---------- A second pass ----------

  /** The tokens of a rendered template, if its values bring no placeholders with them. */
  function Rendered(tokens: seq<Token>, value: string -> string): seq<Token> {
    if tokens == [] then [] else
      (if tokens[0].Placeholder? && value(tokens[0].key) != Braced(tokens[0].key)
       then Literals(value(tokens[0].key)) else [tokens[0]]) + Rendered(tokens[1..], value)
  }

  /** No text outside placeholders has an opening brace, and every value either has none or keeps its placeholder. */
  predicate Tame(tokens: seq<Token>, value: string -> string) {
    forall t :: t in tokens ==>
      match t
      case Literal(c) => c != '{'
      case Placeholder(key) => value(key) == Braced(key) || '{' !in value(key)
  }

  predicate KeysAreWords(tokens: seq<Token>) { forall t :: t in tokens && t.Placeholder? ==> IsWord(t.key) }

  lemma {:induction false} ScannedKeysAreWords(s: string)
    ensures KeysAreWords(Scan(s))
    decreases |s|
  {
    if s != "" {
      match MatchAt(s)
      case Some(key) =>
        MatchExact(s, key);
        ScannedKeysAreWords(s[|key| + 4..]);
      case None => ScannedKeysAreWords(s[1..]);
    }
  }

  lemma ScanPlaceholder(key: string, rest: string)
    requires IsWord(key)
    ensures Scan(Braced(key) + rest) == [Placeholder(key)] + Scan(rest)
  {
    MatchExact(Braced(key) + rest, key);
    assert (Braced(key) + rest)[|key| + 4..] == rest;
  }

  /** Scanning a tame result finds the kept placeholders and nothing new. */
  lemma {:induction false} ScanRendered(tokens: seq<Token>, value: string -> string)
    requires Tame(tokens, value) && KeysAreWords(tokens)
    ensures Scan(Fill(tokens, value)) == Rendered(tokens, value)
  {
    if tokens != [] {
      assert forall t :: t in tokens[1..] ==> t in tokens;
      ScanRendered(tokens[1..], value);
      assert tokens[0] in tokens;
      var rest := Fill(tokens[1..], value);
      match tokens[0]
      case Literal(c) =>
        ScanLiterals([c], rest);
        assert Literals([c]) == [Literal(c)];
      case Placeholder(key) =>
        if value(key) == Braced(key) {
          ScanPlaceholder(key, rest);
        } else {
          ScanLiterals(value(key), rest);
        }
    }
  }

  lemma {:induction false} FillRendered(tokens: seq<Token>, value: string -> string)
    ensures Fill(Rendered(tokens, value), value) == Fill(tokens, value)
  {
    if tokens != [] {
      FillRendered(tokens[1..], value);
      var head := if tokens[0].Placeholder? && value(tokens[0].key) != Braced(tokens[0].key)
                  then Literals(value(tokens[0].key)) else [tokens[0]];
      FillConcat(head, Rendered(tokens[1..], value), value);
      if tokens[0].Placeholder? {
        FillLiterals(value(tokens[0].key), value);
      }
      assert Fill([tokens[0]], value) + "" == Fill([tokens[0]], value);
    }
  }

  /** Rendering a tame template again changes nothing. */
  lemma SecondRenderingIsIdentity(template: string, value: string -> string)
    requires Tame(Scan(template), value)
    ensures Render(Render(template, value), value) == Render(template, value)
  {
    ScannedKeysAreWords(template);
    ScanRendered(Scan(template), value);
    FillRendered(Scan(template), value);
  }

  lemma SinglePlaceholder(key: string, value: string -> string)
    requires IsWord(key)
    ensures Render(Braced(key), value) == value(key)
  {
    ScanPlaceholder(key, "");
    assert Braced(key) + "" == Braced(key);
    assert [Placeholder(key)] + [] == [Placeholder(key)] && [Placeholder(key)][1..] == [];
    assert Fill([], value) == "" && value(key) + "" == value(key);
  }

  /** A value that is a placeholder itself, which is not tame, is replaced by a second rendering. */
  lemma SecondRenderingReplaces(key: string, word: string, value: string -> string)
    requires IsWord(key) && IsWord(word) && value(key) == Braced(word)
    ensures Render(Braced(key), value) == Braced(word)
    ensures Render(Render(Braced(key), value), value) == value(word)
  {
    SinglePlaceholder(key, value);
    SinglePlaceholder(word, value);
  }
}
