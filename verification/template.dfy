/** Task templates: the placeholder scanner, the list of variables, and rendering.

    A placeholder is a name in braces; the scanner takes the leftmost ones, once, from left to right.
    Which characters make a name, and which are stripped, is a parameter. */
module Templates {
  import opened Common

  datatype Token = Char(c: char) | Var(name: string)

  /** The classes of characters that the regular expression and str.strip() refer to. */
  datatype Alphabet = Alphabet(word: char -> bool, space: char -> bool)

  /** Braces are not word characters. */
  predicate BracesAreNotWords(al: Alphabet) {
    !al.word('{') && !al.word('}')
  }

  predicate IsName(al: Alphabet, name: string) {
    name != "" && forall i | 0 <= i < |name| :: al.word(name[i])
  }

  function Placeholder(name: string): string {
    "{" + name + "}"
  }

  /** Length of the longest run of word characters at the start. */
  function WordRun(al: Alphabet, text: string): (n: nat)
    ensures n <= |text|
    ensures forall i | 0 <= i < n :: al.word(text[i])
    ensures n < |text| ==> !al.word(text[n])
  {
    if text == [] || !al.word(text[0]) then 0 else 1 + WordRun(al, text[1..])
  }

  /** The name of the placeholder at the start of the text, if there is one. */
  function NameAt(al: Alphabet, text: string): (name: Option<string>)
    ensures name.Some? ==> IsName(al, name.value) && Placeholder(name.value) <= text
  {
    if text == [] || text[0] != '{' then None
    else
      var n := WordRun(al, text[1..]);
      if 0 < n < |text| - 1 && text[n + 1] == '}' then
        var name := text[1..n + 1];
        assert Placeholder(name) == text[..n + 2];
        assert name == text[1..][..n];
        Some(name)
      else None
  }

  /** The leftmost placeholders, scanned once from left to right. */
  function Tokens(al: Alphabet, text: string): seq<Token>
    decreases |text|
  {
    if text == [] then []
    else
      var name := NameAt(al, text);
      if name.Some? then [Var(name.value)] + Tokens(al, text[|name.value| + 2..])
      else [Char(text[0])] + Tokens(al, text[1..])
  }

  /** Writing tokens out, with a value for each variable. */
  function Filled(tokens: seq<Token>, value: string -> string): string {
    if tokens == [] then ""
    else (if tokens[0].Var? then value(tokens[0].name) else [tokens[0].c]) + Filled(tokens[1..], value)
  }

  function NamesIn(tokens: seq<Token>): seq<string> {
    if tokens == [] then []
    else (if tokens[0].Var? then [tokens[0].name] else []) + NamesIn(tokens[1..])
  }

  function Substitute(al: Alphabet, text: string, value: string -> string): string {
    Filled(Tokens(al, text), value)
  }

  function Names(al: Alphabet, text: string): seq<string> {
    NamesIn(Tokens(al, text))
  }

  // ---- the scanner ----

  /** Putting each variable's own placeholder back gives the text. */
  lemma {:induction false} PlaceholdersRoundTrip(al: Alphabet, text: string)
    ensures Substitute(al, text, Placeholder) == text
    decreases |text|
  {
    if text != [] {
      var name := NameAt(al, text);
      if name.Some? {
        PlaceholdersRoundTrip(al, text[|name.value| + 2..]);
        assert text == Placeholder(name.value) + text[|name.value| + 2..];
      } else {
        PlaceholdersRoundTrip(al, text[1..]);
      }
    }
  }

  /** The result depends on the inputs of the text's own variables only. */
  lemma {:induction false} DependsOnNamesOnly(tokens: seq<Token>, value: string -> string, value': string -> string)
    requires forall name | name in NamesIn(tokens) :: value(name) == value'(name)
    ensures Filled(tokens, value) == Filled(tokens, value')
  {
    if tokens != [] {
      if tokens[0].Var? {
        assert NamesIn(tokens)[0] == tokens[0].name;
        assert tokens[0].name in NamesIn(tokens);
      }
      assert forall name | name in NamesIn(tokens[1..]) :: name in NamesIn(tokens);
      DependsOnNamesOnly(tokens[1..], value, value');
    }
  }

  /** ... and on each of them: a text that has the variable changes with it when nothing else does,
      already in its length. */
  lemma {:induction false} EveryNameMatters(tokens: seq<Token>, value: string -> string, value': string -> string, name: string)
    requires name in NamesIn(tokens)
    requires forall n: string :: |value'(n)| >= |value(n)|
    requires |value'(name)| > |value(name)|
    ensures |Filled(tokens, value')| > |Filled(tokens, value)|
  {
    if tokens != [] {
      LongerValues(tokens[1..], value, value');
      if !(tokens[0].Var? && tokens[0].name == name) {
        assert name in NamesIn(tokens[1..]);
        EveryNameMatters(tokens[1..], value, value', name);
      }
    }
  }

  lemma {:induction false} LongerValues(tokens: seq<Token>, value: string -> string, value': string -> string)
    requires forall n: string :: |value'(n)| >= |value(n)|
    ensures |Filled(tokens, value')| >= |Filled(tokens, value)|
  {
    if tokens != [] {
      LongerValues(tokens[1..], value, value');
    }
  }

  lemma {:induction false} WordRunStopsAtBrace(al: Alphabet, a: string, b: string)
    requires BracesAreNotWords(al)
    ensures WordRun(al, a + "{" + b) == WordRun(al, a)
  {
    if a == [] {
      assert (a + "{" + b)[0] == '{';
    } else {
      assert (a + "{" + b)[1..] == a[1..] + "{" + b;
      assert (a + "{" + b)[0] == a[0];
      WordRunStopsAtBrace(al, a[1..], b);
    }
  }

  /** An opening brace never changes what was scanned before it. */
  lemma NameAtBeforeBrace(al: Alphabet, a: string, b: string)
    requires BracesAreNotWords(al) && a != ""
    ensures NameAt(al, a + "{" + b) == NameAt(al, a)
  {
    assert (a + "{" + b)[0] == a[0];
    if a[0] == '{' {
      assert (a + "{" + b)[1..] == a[1..] + "{" + b;
      WordRunStopsAtBrace(al, a[1..], b);
      var n := WordRun(al, a[1..]);
      if n < |a| - 1 {
        assert (a + "{" + b)[n + 1] == a[n + 1];
        assert (a + "{" + b)[1..n + 1] == a[1..n + 1];
      } else {
        assert (a + "{" + b)[n + 1] == '{';
      }
    }
  }

  /** Length of the first token. */
  function Width(al: Alphabet, text: string): (n: nat)
    requires text != ""
    ensures 0 < n <= |text|
  {
    var name := NameAt(al, text);
    if name.Some? then |name.value| + 2 else 1
  }

  function FirstToken(al: Alphabet, text: string): Token
    requires text != ""
  {
    var name := NameAt(al, text);
    if name.Some? then Var(name.value) else Char(text[0])
  }

  lemma TokensStep(al: Alphabet, text: string)
    requires text != ""
    ensures Tokens(al, text) == [FirstToken(al, text)] + Tokens(al, text[Width(al, text)..])
  {
  }

  lemma FirstTokenBeforeBrace(al: Alphabet, a: string, b: string)
    requires BracesAreNotWords(al) && a != ""
    ensures var text := a + "{" + b;
            && FirstToken(al, text) == FirstToken(al, a) && Width(al, text) == Width(al, a)
            && text[Width(al, a)..] == a[Width(al, a)..] + "{" + b
  {
    NameAtBeforeBrace(al, a, b);
    assert (a + "{" + b)[0] == a[0];
  }

  lemma Regroup(t: Token, a: seq<Token>, b: seq<Token>)
    ensures [t] + a + b == [t] + (a + b)
  {
  }

  lemma {:induction false} TokensSplitAtBrace(al: Alphabet, a: string, b: string)
    requires BracesAreNotWords(al)
    ensures Tokens(al, a + "{" + b) == Tokens(al, a) + Tokens(al, "{" + b)
    decreases |a|
  {
    if a == [] {
      assert a + "{" + b == "{" + b;
    } else {
      FirstTokenBeforeBrace(al, a, b);
      var w := Width(al, a);
      TokensSplitAtBrace(al, a[w..], b);
      TokensStep(al, a);
      TokensStep(al, a + "{" + b);
      Regroup(FirstToken(al, a), Tokens(al, a[w..]), Tokens(al, "{" + b));
    }
  }

  lemma {:induction false} WordRunOfName(al: Alphabet, name: string, rest: string)
    requires (forall i | 0 <= i < |name| :: al.word(name[i])) && !al.word('}')
    ensures WordRun(al, name + "}" + rest) == |name|
  {
    if name == [] {
      assert (name + "}" + rest)[0] == '}';
    } else {
      assert (name + "}" + rest)[1..] == name[1..] + "}" + rest;
      WordRunOfName(al, name[1..], rest);
    }
  }

  lemma TokensAtPlaceholder(al: Alphabet, name: string, b: string)
    requires BracesAreNotWords(al) && IsName(al, name)
    ensures Tokens(al, Placeholder(name) + b) == [Var(name)] + Tokens(al, b)
  {
    var text := Placeholder(name) + b;
    assert text[1..] == name + "}" + b;
    WordRunOfName(al, name, b);
    assert text[1..|name| + 1] == name;
    assert text[|name| + 1] == '}';
    assert text[|name| + 2..] == b;
    assert NameAt(al, text) == Some(name);
  }

  lemma {:induction false} FilledAppend(a: seq<Token>, b: seq<Token>, value: string -> string)
    ensures Filled(a + b, value) == Filled(a, value) + Filled(b, value)
  {
    if a == [] {
      assert a + b == b;
    } else {
      assert (a + b)[1..] == a[1..] + b;
      FilledAppend(a[1..], b, value);
    }
  }

  /** A placeholder anywhere in any text is replaced by its value as it stands: the value is never
      scanned again, and what is around it is rendered as if it stood alone. */
  lemma ValuesAreNotRescanned(al: Alphabet, a: string, name: string, b: string, value: string -> string)
    requires BracesAreNotWords(al) && IsName(al, name)
    ensures Substitute(al, a + Placeholder(name) + b, value) == Substitute(al, a, value) + value(name) + Substitute(al, b, value)
  {
    var tail := name + "}" + b;
    assert a + Placeholder(name) + b == a + "{" + tail;
    assert "{" + tail == Placeholder(name) + b;
    TokensSplitAtBrace(al, a, tail);
    TokensAtPlaceholder(al, name, b);
    var rest := [Var(name)] + Tokens(al, b);
    FilledAppend(Tokens(al, a), rest, value);
    assert rest[1..] == Tokens(al, b);
    assert Filled(rest, value) == value(name) + Substitute(al, b, value);
  }

  /** Rendering is therefore not idempotent: braces around a placeholder become a new one. */
  lemma RenderingTwiceDiffers(al: Alphabet, name: string)
    requires BracesAreNotWords(al) && IsName(al, name)
    ensures var value := (n: string) => name;
            && Substitute(al, "{" + Placeholder(name) + "}", value) == Placeholder(name)
            && Substitute(al, Placeholder(name), value) == name != Placeholder(name)
  {
    var value := (n: string) => name;
    ValuesAreNotRescanned(al, "{", name, "}", value);
    ValuesAreNotRescanned(al, "", name, "", value);
    assert Tokens(al, "{") == [Char('{')] + Tokens(al, "{"[1..]);
    assert Tokens(al, "}") == [Char('}')] + Tokens(al, "}"[1..]);
    assert "" + Placeholder(name) + "" == Placeholder(name);
    assert |Placeholder(name)| == |name| + 2;
  }

  function OpeningBraces(s: string): nat {
    if s == "" then 0 else (if s[0] == '{' then 1 else 0) + OpeningBraces(s[1..])
  }

  lemma {:induction false} OpeningBracesAppend(a: string, b: string)
    ensures OpeningBraces(a + b) == OpeningBraces(a) + OpeningBraces(b)
  {
    if a == "" {
      assert a + b == b;
    } else {
      assert (a + b)[1..] == a[1..] + b;
      OpeningBracesAppend(a[1..], b);
    }
  }

  lemma PlaceholderBraces(name: string)
    ensures OpeningBraces(Placeholder(name)) >= 1
  {
    assert Placeholder(name)[0] == '{';
  }

  /** Filling variables with values without an opening brace loses at least one brace for each. */
  lemma {:induction false} FillingLosesBraces(tokens: seq<Token>, value: string -> string)
    requires forall name | name in NamesIn(tokens) :: OpeningBraces(value(name)) == 0
    ensures OpeningBraces(Filled(tokens, value)) + |NamesIn(tokens)| <= OpeningBraces(Filled(tokens, Placeholder))
  {
    if tokens != [] {
      var first := if tokens[0].Var? then [tokens[0].name] else [];
      assert NamesIn(tokens) == first + NamesIn(tokens[1..]);
      assert forall name | name in NamesIn(tokens[1..]) :: name in NamesIn(tokens);
      FillingLosesBraces(tokens[1..], value);
      if tokens[0].Var? {
        assert tokens[0].name in NamesIn(tokens);
        OpeningBracesAppend(value(tokens[0].name), Filled(tokens[1..], value));
        OpeningBracesAppend(Placeholder(tokens[0].name), Filled(tokens[1..], Placeholder));
        PlaceholderBraces(tokens[0].name);
      } else {
        OpeningBracesAppend([tokens[0].c], Filled(tokens[1..], value));
        OpeningBracesAppend([tokens[0].c], Filled(tokens[1..], Placeholder));
      }
    }
  }

  lemma {:induction false} NoNamesNoChange(tokens: seq<Token>, value: string -> string)
    requires NamesIn(tokens) == []
    ensures Filled(tokens, value) == Filled(tokens, Placeholder)
  {
    if tokens != [] {
      assert !tokens[0].Var?;
      NoNamesNoChange(tokens[1..], value);
    }
  }

  /** The exact condition for a second substitution to change nothing: the first one left no placeholder.
      Needed is only that the values of such placeholders hold no opening brace. */
  lemma SubstitutingTwiceAgreesIff(al: Alphabet, text: string, value: string -> string)
    requires forall name | name in Names(al, Substitute(al, text, value)) :: OpeningBraces(value(name)) == 0
    ensures var once := Substitute(al, text, value);
            Substitute(al, once, value) == once <==> Names(al, once) == []
  {
    var once := Substitute(al, text, value);
    PlaceholdersRoundTrip(al, once);
    if Names(al, once) == [] {
      NoNamesNoChange(Tokens(al, once), value);
    } else {
      FillingLosesBraces(Tokens(al, once), value);
    }
  }

  // ---- variables() ----

  /** The distinct elements, each where it first occurs. */
  function FirstOccurrences(s: seq<string>): seq<string> {
    if s == [] then []
    else
      var found := FirstOccurrences(s[..|s| - 1]);
      if s[|s| - 1] in found then found else found + [s[|s| - 1]]
  }

  function FirstIndex(s: seq<string>, x: string): (i: nat)
    requires x in s
    ensures i < |s| && s[i] == x
    ensures forall j | 0 <= j < i :: s[j] != x
  {
    if s[0] == x then 0 else 1 + FirstIndex(s[1..], x)
  }

  lemma {:induction false} FirstOccurrencesSame(s: seq<string>)
    ensures forall x :: x in FirstOccurrences(s) <==> x in s
    ensures forall i, j | 0 <= i < j < |FirstOccurrences(s)| :: FirstOccurrences(s)[i] != FirstOccurrences(s)[j]
  {
    if s != [] {
      FirstOccurrencesSame(s[..|s| - 1]);
      assert s == s[..|s| - 1] + [s[|s| - 1]];
    }
  }

  /** They come in the order in which they first occur. */
  lemma {:induction false} FirstOccurrencesInOrder(s: seq<string>, i: nat, j: nat)
    requires i < j < |FirstOccurrences(s)|
    requires FirstOccurrences(s)[i] in s && FirstOccurrences(s)[j] in s
    ensures FirstIndex(s, FirstOccurrences(s)[i]) < FirstIndex(s, FirstOccurrences(s)[j])
  {
    var init, last := s[..|s| - 1], s[|s| - 1];
    var found := FirstOccurrences(init);
    FirstOccurrencesSame(init);
    assert s == init + [last] && found[i] in init;
    FirstIndexOfPrefix(init, last, found[i]);
    if j < |found| {
      assert found[j] in init;
      FirstOccurrencesInOrder(init, i, j);
      FirstIndexOfPrefix(init, last, found[j]);
    } else {
      NotInPrefix(init, last);
    }
  }

  lemma FirstIndexOfPrefix(init: seq<string>, last: string, x: string)
    requires x in init
    ensures x in init + [last] && FirstIndex(init + [last], x) == FirstIndex(init, x) < |init|
  {
    assert (init + [last])[FirstIndex(init, x)] == x;
  }

  lemma NotInPrefix(init: seq<string>, last: string)
    requires last !in init
    ensures last in init + [last] && FirstIndex(init + [last], last) == |init|
  {
    forall k | 0 <= k < |init| ensures (init + [last])[k] != last {
      assert init[k] in init;
    }
    assert (init + [last])[|init|] == last;
  }

  datatype AgentTemplate = AgentTemplate(goalTemplate: string, contextTemplate: Option<string>)

  function AllNames(al: Alphabet, t: AgentTemplate): seq<string> {
    Names(al, t.goalTemplate) + Names(al, t.contextTemplate.GetOr(""))
  }

  /** The inner loop: names are added unless they are there already. */
  method AddNew(found: seq<string>, matches: seq<string>, ghost seen: seq<string>) returns (found': seq<string>)
    requires found == FirstOccurrences(seen)
    ensures found' == FirstOccurrences(seen + matches)
  {
    found' := found;
    assert seen + [] == seen;
    for i := 0 to |matches|
      invariant found' == FirstOccurrences(seen + matches[..i])
    {
      assert (seen + matches[..i + 1])[..|seen| + i] == seen + matches[..i];
      if matches[i] !in found' {
        found' := found' + [matches[i]];
      }
    }
    assert matches[..|matches|] == matches;
  }

  method Variables(al: Alphabet, t: AgentTemplate) returns (found: seq<string>)
    ensures found == FirstOccurrences(AllNames(al, t))
    ensures forall i, j | 0 <= i < j < |found| :: found[i] != found[j]
    ensures forall x :: x in found <==> x in AllNames(al, t)
  {
    found := [];
    ghost var seen: seq<string> := [];
    var texts := [t.goalTemplate, t.contextTemplate.GetOr("")];
    for n := 0 to 2
      invariant found == FirstOccurrences(seen)
      invariant seen == if n == 0 then [] else if n == 1 then Names(al, texts[0]) else AllNames(al, t)
    {
      found := AddNew(found, Names(al, texts[n]), seen);
      seen := seen + Names(al, texts[n]);
    }
    FirstOccurrencesSame(AllNames(al, t));
  }

  // ---- render() ----

  function StripLeft(al: Alphabet, s: string): string {
    if s != [] && al.space(s[0]) then StripLeft(al, s[1..]) else s
  }

  function StripRight(al: Alphabet, s: string): string {
    if s != [] && al.space(s[|s| - 1]) then StripRight(al, s[..|s| - 1]) else s
  }

  function Strip(al: Alphabet, s: string): string {
    StripRight(al, StripLeft(al, s))
  }

  /** A missing input counts as empty. */
  function Given(inputs: map<string, string>): string -> string {
    name => if name in inputs then inputs[name] else ""
  }

  function Rendered(al: Alphabet, text: string, inputs: map<string, string>): string {
    Strip(al, Substitute(al, text, Given(inputs)))
  }

  method Render(al: Alphabet, t: AgentTemplate, inputs: map<string, string>) returns (goal: string, context: Option<string>)
    ensures goal == Rendered(al, t.goalTemplate, inputs)
    ensures context.Some? ==> Truthy(t.contextTemplate) && context.value == Rendered(al, t.contextTemplate.value, inputs)
    ensures context.None? <==>
              !Truthy(t.contextTemplate) || AllSpace(al, Substitute(al, t.contextTemplate.value, Given(inputs)))
  {
    goal := Rendered(al, t.goalTemplate, inputs);
    context := None;
    if Truthy(t.contextTemplate) {
      var text := Rendered(al, t.contextTemplate.value, inputs);
      StripEmptyIff(al, Substitute(al, t.contextTemplate.value, Given(inputs)));
      if text != "" {
        context := Some(text);
      }
    }
  }

  predicate AllSpace(al: Alphabet, s: string) {
    forall i | 0 <= i < |s| :: al.space(s[i])
  }

  lemma {:induction false} StripLeftEmpty(al: Alphabet, s: string)
    ensures StripLeft(al, s) == "" <==> AllSpace(al, s)
    ensures StripLeft(al, s) != "" ==> !al.space(StripLeft(al, s)[0])
  {
    if s != [] && al.space(s[0]) {
      StripLeftEmpty(al, s[1..]);
      assert forall i | 0 < i < |s| :: s[i] == s[1..][i - 1];
    }
  }

  lemma {:induction false} StripRightKeepsStart(al: Alphabet, s: string)
    requires s != "" && !al.space(s[0])
    ensures StripRight(al, s) != "" && StripRight(al, s)[0] == s[0]
  {
    if al.space(s[|s| - 1]) {
      StripRightKeepsStart(al, s[..|s| - 1]);
    }
  }

  /** Stripping leaves nothing exactly when there are only spaces. */
  lemma StripEmptyIff(al: Alphabet, s: string)
    ensures Strip(al, s) == "" <==> AllSpace(al, s)
  {
    StripLeftEmpty(al, s);
    if StripLeft(al, s) != "" {
      StripRightKeepsStart(al, StripLeft(al, s));
    }
  }

  lemma {:induction false} StripRightOfStripped(al: Alphabet, s: string)
    ensures StripRight(al, StripRight(al, s)) == StripRight(al, s)
  {
    if s != [] && al.space(s[|s| - 1]) {
      StripRightOfStripped(al, s[..|s| - 1]);
    }
  }

  lemma StripIdempotent(al: Alphabet, s: string)
    ensures Strip(al, Strip(al, s)) == Strip(al, s)
  {
    StripLeftEmpty(al, s);
    if StripLeft(al, s) != "" {
      StripRightKeepsStart(al, StripLeft(al, s));
    }
    StripRightOfStripped(al, StripLeft(al, s));
  }

  /** Inputs for names that variables() does not list make no difference to what is rendered. */
  lemma OnlyListedInputsMatter(al: Alphabet, t: AgentTemplate, text: string, inputs: map<string, string>, more: map<string, string>)
    requires text == t.goalTemplate || t.contextTemplate == Some(text)
    requires forall name | name in FirstOccurrences(AllNames(al, t)) :: Given(inputs)(name) == Given(more)(name)
    ensures Rendered(al, text, inputs) == Rendered(al, text, more)
  {
    FirstOccurrencesSame(AllNames(al, t));
    DependsOnNamesOnly(Tokens(al, text), Given(inputs), Given(more));
  }

  // ---- rendering what was rendered ----

  /** From the start of the text on: word characters and then a closing brace, with a character in
      between or seen before. */
  predicate ClosesText(al: Alphabet, s: string, seen: bool) {
    s != "" && if s[0] == '}' then seen else al.word(s[0]) && ClosesText(al, s[1..], true)
  }

  /** The same for what tokens are filled to, told from the tokens and the inserted values. */
  predicate Closes(al: Alphabet, tokens: seq<Token>, value: string -> string, seen: bool) {
    tokens != [] &&
    match tokens[0]
    case Char(c) => if c == '}' then seen else al.word(c) && Closes(al, tokens[1..], value, true)
    case Var(name) =>
      || ClosesText(al, value(name), seen)
      || (AllWord(al, value(name)) && Closes(al, tokens[1..], value, seen || value(name) != ""))
  }

  predicate AllWord(al: Alphabet, s: string) {
    forall i | 0 <= i < |s| :: al.word(s[i])
  }

  /** An opening brace of the text, with what follows it, becomes a placeholder by the insertion. */
  predicate MakesPlaceholder(al: Alphabet, tokens: seq<Token>, value: string -> string) {
    tokens != [] &&
    ((tokens[0] == Char('{') && Closes(al, tokens[1..], value, false)) || MakesPlaceholder(al, tokens[1..], value))
  }

  predicate HasPlaceholder(al: Alphabet, s: string) {
    s != "" && (NameAt(al, s).Some? || HasPlaceholder(al, s[1..]))
  }

  lemma {:induction false} ClosesAfterWords(al: Alphabet, s: string, seen: bool)
    requires !al.word('}')
    ensures ClosesText(al, s, seen) <==>
              WordRun(al, s) < |s| && s[WordRun(al, s)] == '}' && (seen || WordRun(al, s) > 0)
  {
    if s != "" && s[0] != '}' && al.word(s[0]) {
      ClosesAfterWords(al, s[1..], true);
    }
  }

  lemma NameAtIffCloses(al: Alphabet, s: string)
    requires !al.word('}') && s != ""
    ensures NameAt(al, s).Some? <==> s[0] == '{' && ClosesText(al, s[1..], false)
  {
    ClosesAfterWords(al, s[1..], false);
  }

  lemma {:induction false} ClosesAppend(al: Alphabet, v: string, rest: string, seen: bool)
    requires !al.word('}')
    ensures ClosesText(al, v + rest, seen) <==>
              ClosesText(al, v, seen) || (AllWord(al, v) && ClosesText(al, rest, seen || v != ""))
  {
    if v == "" {
      assert v + rest == rest;
    } else {
      assert (v + rest)[0] == v[0] && (v + rest)[1..] == v[1..] + rest;
      if v[0] != '}' && al.word(v[0]) {
        ClosesAppend(al, v[1..], rest, true);
        assert AllWord(al, v) <==> AllWord(al, v[1..]) by {
          assert forall i | 0 < i < |v| :: v[i] == v[1..][i - 1];
        }
      }
    }
  }

  lemma {:induction false} ClosesFilled(al: Alphabet, tokens: seq<Token>, value: string -> string, seen: bool)
    requires !al.word('}')
    ensures ClosesText(al, Filled(tokens, value), seen) <==> Closes(al, tokens, value, seen)
  {
    if tokens != [] {
      var rest := Filled(tokens[1..], value);
      match tokens[0]
      case Char(c) =>
        assert ([c] + rest)[1..] == rest;
        ClosesFilled(al, tokens[1..], value, true);
      case Var(name) =>
        ClosesAppend(al, value(name), rest, seen);
        ClosesFilled(al, tokens[1..], value, seen || value(name) != "");
    }
  }

  lemma {:induction false} NoPlaceholderInPrefix(al: Alphabet, v: string, rest: string)
    requires OpeningBraces(v) == 0
    ensures HasPlaceholder(al, v + rest) <==> HasPlaceholder(al, rest)
  {
    if v == "" {
      assert v + rest == rest;
    } else {
      assert (v + rest)[0] == v[0] && (v + rest)[1..] == v[1..] + rest;
      NoPlaceholderInPrefix(al, v[1..], rest);
    }
  }

  lemma {:induction false} FilledHasPlaceholderIff(al: Alphabet, tokens: seq<Token>, value: string -> string)
    requires !al.word('}') && forall name | name in NamesIn(tokens) :: OpeningBraces(value(name)) == 0
    ensures HasPlaceholder(al, Filled(tokens, value)) <==> MakesPlaceholder(al, tokens, value)
  {
    if tokens != [] {
      var rest := Filled(tokens[1..], value);
      assert forall name | name in NamesIn(tokens[1..]) :: name in NamesIn(tokens);
      FilledHasPlaceholderIff(al, tokens[1..], value);
      match tokens[0]
      case Char(c) =>
        assert ([c] + rest)[0] == c && ([c] + rest)[1..] == rest;
        NameAtIffCloses(al, [c] + rest);
        ClosesFilled(al, tokens[1..], value, false);
      case Var(name) =>
        assert NamesIn(tokens)[0] == name;
        NoPlaceholderInPrefix(al, value(name), rest);
    }
  }

  lemma {:induction false} NamesIffPlaceholder(al: Alphabet, s: string)
    ensures Names(al, s) != [] <==> HasPlaceholder(al, s)
    decreases |s|
  {
    if s != "" && NameAt(al, s).None? {
      NamesIffPlaceholder(al, s[1..]);
    }
  }

  lemma {:induction false} StripLeftKeepsPlaceholders(al: Alphabet, s: string)
    requires !al.space('{')
    ensures HasPlaceholder(al, StripLeft(al, s)) <==> HasPlaceholder(al, s)
    ensures OpeningBraces(StripLeft(al, s)) == OpeningBraces(s)
  {
    if s != "" && al.space(s[0]) {
      StripLeftKeepsPlaceholders(al, s[1..]);
    }
  }

  lemma {:induction false} SpaceAtEndClosesNothing(al: Alphabet, s: string, c: char, seen: bool)
    requires c != '}'
    ensures ClosesText(al, s + [c], seen) <==> ClosesText(al, s, seen)
  {
    if s == "" {
      assert (s + [c])[1..] == "";
    } else {
      assert (s + [c])[0] == s[0] && (s + [c])[1..] == s[1..] + [c];
      SpaceAtEndClosesNothing(al, s[1..], c, true);
    }
  }

  lemma {:induction false} SpaceAtEndMakesNothing(al: Alphabet, s: string, c: char)
    requires !al.word('}') && c != '}' && c != '{'
    ensures HasPlaceholder(al, s + [c]) <==> HasPlaceholder(al, s)
  {
    NameAtIffCloses(al, s + [c]);
    if s == "" {
      assert (s + [c])[1..] == "";
    } else {
      NameAtIffCloses(al, s);
      assert (s + [c])[0] == s[0] && (s + [c])[1..] == s[1..] + [c];
      SpaceAtEndClosesNothing(al, s[1..], c, false);
      SpaceAtEndMakesNothing(al, s[1..], c);
    }
  }

  lemma {:induction false} StripRightKeepsPlaceholders(al: Alphabet, s: string)
    requires !al.word('}') && !al.space('}') && !al.space('{')
    ensures HasPlaceholder(al, StripRight(al, s)) <==> HasPlaceholder(al, s)
    ensures OpeningBraces(StripRight(al, s)) == OpeningBraces(s)
  {
    if s != "" && al.space(s[|s| - 1]) {
      var init, c := s[..|s| - 1], s[|s| - 1];
      assert s == init + [c];
      StripRightKeepsPlaceholders(al, init);
      SpaceAtEndMakesNothing(al, init, c);
      OpeningBracesAppend(init, [c]);
    }
  }

  lemma StripKeepsPlaceholders(al: Alphabet, s: string)
    requires !al.word('}') && !al.space('}') && !al.space('{')
    ensures HasPlaceholder(al, Strip(al, s)) <==> HasPlaceholder(al, s)
    ensures OpeningBraces(Strip(al, s)) == OpeningBraces(s)
  {
    StripLeftKeepsPlaceholders(al, s);
    StripRightKeepsPlaceholders(al, StripLeft(al, s));
  }

  /** Rendering what was rendered, with inputs that hold no opening brace, changes nothing if and only if
      no opening brace of the text was made a placeholder by the inserted values. */
  lemma RenderingTwiceAgreesIff(al: Alphabet, text: string, inputs: map<string, string>)
    requires !al.word('}') && !al.space('}') && !al.space('{')
    requires forall name | name in inputs :: OpeningBraces(inputs[name]) == 0
    ensures Rendered(al, Rendered(al, text, inputs), inputs) == Rendered(al, text, inputs) <==>
              !MakesPlaceholder(al, Tokens(al, text), Given(inputs))
  {
    var value, once := Given(inputs), Rendered(al, text, inputs);
    FilledHasPlaceholderIff(al, Tokens(al, text), value);
    StripKeepsPlaceholders(al, Substitute(al, text, value));
    NamesIffPlaceholder(al, once);
    PlaceholdersRoundTrip(al, once);
    if Names(al, once) == [] {
      NoNamesNoChange(Tokens(al, once), value);
      StripIdempotent(al, Substitute(al, text, value));
    } else {
      FillingLosesBraces(Tokens(al, once), value);
      StripKeepsPlaceholders(al, Substitute(al, once, value));
    }
  }

  // ---- what is inserted and what is stripped ----

  /** A placeholder alone is rendered to its input, stripped; a missing input counts as empty. */
  lemma PlaceholderRendersInput(al: Alphabet, name: string, inputs: map<string, string>)
    requires BracesAreNotWords(al) && IsName(al, name)
    ensures Rendered(al, Placeholder(name), inputs) == Strip(al, if name in inputs then inputs[name] else "")
  {
    ValuesAreNotRescanned(al, "", name, "", Given(inputs));
    assert "" + Placeholder(name) + "" == Placeholder(name);
    assert "" + Given(inputs)(name) + "" == Given(inputs)(name);
  }

  /** Stripping takes off exactly the white space at both ends. */
  lemma StripIsExact(al: Alphabet, s: string) returns (i: nat, j: nat)
    ensures i <= j <= |s| && Strip(al, s) == s[i..j]
    ensures forall k | 0 <= k < |s| && (k < i || k >= j) :: al.space(s[k])
    ensures i < j ==> !al.space(s[i]) && !al.space(s[j - 1])
  {
    i := StripLeftIsExact(al, s);
    j := StripRightIsExact(al, s[i..]);
    j := i + j;
    if i < j {
      assert s[i..][..j - i][0] == s[i];
    }
    assert forall k | j <= k < |s| :: s[k] == s[i..][k - i];
  }

  lemma {:induction false} StripLeftIsExact(al: Alphabet, s: string) returns (i: nat)
    ensures i <= |s| && StripLeft(al, s) == s[i..]
    ensures forall k | 0 <= k < i :: al.space(s[k])
    ensures i < |s| ==> !al.space(s[i])
  {
    if s != [] && al.space(s[0]) {
      i := StripLeftIsExact(al, s[1..]);
      assert forall k | 0 < k < i + 1 :: s[k] == s[1..][k - 1];
      i := i + 1;
    } else {
      i := 0;
    }
  }

  lemma {:induction false} StripRightIsExact(al: Alphabet, s: string) returns (j: nat)
    ensures j <= |s| && StripRight(al, s) == s[..j]
    ensures forall k | j <= k < |s| :: al.space(s[k])
    ensures 0 < j ==> !al.space(s[j - 1])
  {
    if s != [] && al.space(s[|s| - 1]) {
      j := StripRightIsExact(al, s[..|s| - 1]);
    } else {
      j := |s|;
    }
  }
}
