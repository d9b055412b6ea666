/**
  Stage extraction and classification (`_parse_jenkinsfile` and `_classify_stage`,
  jenkins-to-gha-converter.py:176-209).

  The extractor is the regular expression
      stage \s* ( \s* ['"] ([^'"]+) ['"] \s* )
  applied case-insensitively with `re.findall`. Since `\s` never matches `(` or
  `)`, and `[^'"]+` never matches a quote, every part of the pattern has exactly
  one way to match, so the regular expression is written here as a
  deterministic scanner: try to match at the current position; on success
  record the name and continue after the match, otherwise move on by one
  character.
 */
module Stages {
  import opened Options
  import opened Text

  datatype StageKind = Build | Test | Deliver | Security

  const BuildKeywords: seq<string> := ["build", "compile", "package"]
  const TestKeywords: seq<string> := ["test", "unit", "integration"]
  const DeliverKeywords: seq<string> := ["deploy", "deliver", "publish", "release"]
  const SecurityKeywords: seq<string> := ["security", "scan", "vulnerability", "audit"]

  /** `any(keyword in name for keyword in keywords)`. */
  predicate MentionsAny(name: string, keywords: seq<string>) {
    exists i :: 0 <= i < |keywords| && Contains(name, keywords[i])
  }

  /** `_classify_stage`: the first keyword family found in the (already
      lower-cased) name decides, in the order build, test, deliver, security;
      a name with no keyword counts as a build stage. */
  function Classify(name: string): StageKind {
    if MentionsAny(name, BuildKeywords) then Build
    else if MentionsAny(name, TestKeywords) then Test
    else if MentionsAny(name, DeliverKeywords) then Deliver
    else if MentionsAny(name, SecurityKeywords) then Security
    else Build
  }

  /** The classification of each kind, stated family by family. */
  lemma ClassifyCharacterisation(name: string)
    ensures Classify(name) == Build
      <==> MentionsAny(name, BuildKeywords)
           || (!MentionsAny(name, TestKeywords) && !MentionsAny(name, DeliverKeywords)
               && !MentionsAny(name, SecurityKeywords))
    ensures Classify(name) == Test
      <==> !MentionsAny(name, BuildKeywords) && MentionsAny(name, TestKeywords)
    ensures Classify(name) == Deliver
      <==> !MentionsAny(name, BuildKeywords) && !MentionsAny(name, TestKeywords)
           && MentionsAny(name, DeliverKeywords)
    ensures Classify(name) == Security
      <==> !MentionsAny(name, BuildKeywords) && !MentionsAny(name, TestKeywords)
           && !MentionsAny(name, DeliverKeywords) && MentionsAny(name, SecurityKeywords)
  {
  }

  /** A stage whose name mentions `build`, `compile` or `package` in any letter
      case is a build stage, whatever else it mentions. */
  lemma BuildDominates(name: string, keyword: string)
    requires keyword in BuildKeywords
    requires Contains(Lower(name), keyword)
    ensures Classify(Lower(name)) == Build
  {
    var i :| 0 <= i < |BuildKeywords| && BuildKeywords[i] == keyword;
  }

  /** A name with no build keyword that mentions a test keyword is a test stage,
      whatever delivery or security keywords it also mentions. */
  lemma TestBeatsLaterFamilies(name: string, keyword: string)
    requires !MentionsAny(name, BuildKeywords)
    requires keyword in TestKeywords && Contains(name, keyword)
    ensures Classify(name) == Test
  {
    var i :| 0 <= i < |TestKeywords| && TestKeywords[i] == keyword;
  }

  /** A name without the letters `b`, `c` and `k` mentions no build keyword. */
  lemma NoBuildKeyword(name: string)
    requires 'b' !in name && 'c' !in name && 'k' !in name
    ensures !MentionsAny(name, BuildKeywords)
  {
    MissingCharNotContained(name, BuildKeywords[0], 'b');
    assert 'c' in BuildKeywords[1];
    MissingCharNotContained(name, BuildKeywords[1], 'c');
    assert 'k' in BuildKeywords[2];
    MissingCharNotContained(name, BuildKeywords[2], 'k');
  }

  /** `integration-test-and-deploy` mentions `test` and `deploy` but is a test stage. */
  lemma TestBeforeDeliver(s: string)
    requires s == "integration-test-and-deploy"
    ensures Classify(s) == Test
  {
    assert 'b' !in s && 'c' !in s && 'k' !in s;
    NoBuildKeyword(s);
    assert s[..11] == "integration";
    assert Contains(s, TestKeywords[2]);
    TestBeatsLaterFamilies(s, "integration");
  }

  // ---------------------------------------------------------------------------
  // The stage-declaration pattern

  /** One match of the pattern, part by part: the keyword as written, the three
      runs of whitespace, the two quotes and the captured name. */
  datatype Decl = Decl(keyword: string, gap1: string, gap2: string, open: char,
                       name: string, close: char, gap3: string)

  /** The text a declaration spans, built from the back: `Tail1` is what follows
      the keyword, `Tail2` what follows the opening parenthesis, `Tail3` what
      follows the opening quote and `Tail4` what follows the closing quote. */
  function DeclText(d: Decl): string {
    d.keyword + Tail1(d)
  }

  function Tail1(d: Decl): string {
    d.gap1 + ("(" + Tail2(d))
  }

  function Tail2(d: Decl): string {
    d.gap2 + ([d.open] + Tail3(d))
  }

  function Tail3(d: Decl): string {
    d.name + ([d.close] + Tail4(d))
  }

  function Tail4(d: Decl): string {
    d.gap3 + ")"
  }

  /** The constraints the pattern puts on each part. Opening and closing quotes
      need not agree, and the name may hold any non-quote character, line
      feeds included. */
  predicate ValidDecl(d: Decl) {
    && |d.keyword| == 5 && Lower(d.keyword) == "stage"
    && AllSpaces(d.gap1) && AllSpaces(d.gap2) && AllSpaces(d.gap3)
    && IsQuote(d.open) && IsQuote(d.close)
    && |d.name| > 0 && NoQuotes(d.name)
  }

  /** Length of the longest whitespace prefix (`\s*`). */
  function SpaceRun(s: string): (k: nat)
    ensures k <= |s| && AllSpaces(s[..k]) && (k == |s| || !IsSpace(s[k]))
  {
    if |s| > 0 && IsSpace(s[0]) then
      var k := 1 + SpaceRun(s[1..]);
      assert s[..k] == [s[0]] + s[1..][..k - 1];
      k
    else 0
  }

  /** Length of the longest quote-free prefix (`[^'"]*`). */
  function NameRun(s: string): (k: nat)
    ensures k <= |s| && NoQuotes(s[..k]) && (k == |s| || IsQuote(s[k]))
  {
    if |s| > 0 && !IsQuote(s[0]) then
      var k := 1 + NameRun(s[1..]);
      assert s[..k] == [s[0]] + s[1..][..k - 1];
      k
    else 0
  }

  /** A text made of a run, one character and a rest that starts with `y`. */
  lemma StartsWithStep(t: string, k: nat, y: string)
    requires k < |t| && StartsWith(t[k + 1..], y)
    ensures StartsWith(t, t[..k] + ([t[k]] + y))
  {
    assert t[..k + 1 + |y|] == t[..k] + [t[k]] + t[k + 1..][..|y|];
  }

  /** `\s* )` at the start of `t`, completing `d` with the last gap. */
  function AfterName(d: Decl, t: string): (r: Option<Decl>)
    ensures r.Some? ==> r.value == d.(gap3 := r.value.gap3)
    ensures r.Some? ==> AllSpaces(r.value.gap3) && StartsWith(t, Tail4(r.value))
  {
    var k := SpaceRun(t);
    if k == |t| || t[k] != ')' then None
    else
      StartsWithStep(t, k, "");
      Some(d.(gap3 := t[..k]))
  }

  /** `[^'"]+ ['"] \s* )` at the start of `t`. */
  function AfterOpenQuote(d: Decl, t: string): (r: Option<Decl>)
    ensures r.Some? ==> r.value == d.(name := r.value.name, close := r.value.close, gap3 := r.value.gap3)
    ensures r.Some? ==> (|r.value.name| > 0 && NoQuotes(r.value.name) && IsQuote(r.value.close)
                         && AllSpaces(r.value.gap3) && StartsWith(t, Tail3(r.value)))
  {
    var k := NameRun(t);
    if k == 0 || k == |t| then None
    else
      var r := AfterName(d.(name := t[..k], close := t[k]), t[k + 1..]);
      if r.None? then None
      else
        StartsWithStep(t, k, Tail4(r.value));
        r
  }

  /** `\s* ['"] [^'"]+ ['"] \s* )` at the start of `t`. */
  function AfterParen(d: Decl, t: string): (r: Option<Decl>)
    ensures r.Some? ==> r.value == d.(gap2 := r.value.gap2, open := r.value.open, name := r.value.name,
                                      close := r.value.close, gap3 := r.value.gap3)
    ensures r.Some? ==> (AllSpaces(r.value.gap2) && IsQuote(r.value.open)
                         && |r.value.name| > 0 && NoQuotes(r.value.name) && IsQuote(r.value.close)
                         && AllSpaces(r.value.gap3) && StartsWith(t, Tail2(r.value)))
  {
    var k := SpaceRun(t);
    if k == |t| || !IsQuote(t[k]) then None
    else
      var r := AfterOpenQuote(d.(gap2 := t[..k], open := t[k]), t[k + 1..]);
      if r.None? then None
      else
        StartsWithStep(t, k, Tail3(r.value));
        r
  }

  /** `\s* ( \s* ['"] [^'"]+ ['"] \s* )` at the start of `t`. */
  function AfterKeyword(d: Decl, t: string): (r: Option<Decl>)
    ensures r.Some? ==> r.value.keyword == d.keyword
    ensures r.Some? ==> (AllSpaces(r.value.gap1) && AllSpaces(r.value.gap2) && IsQuote(r.value.open)
                         && |r.value.name| > 0 && NoQuotes(r.value.name) && IsQuote(r.value.close)
                         && AllSpaces(r.value.gap3) && StartsWith(t, Tail1(r.value)))
  {
    var k := SpaceRun(t);
    if k == |t| || t[k] != '(' then None
    else
      var r := AfterParen(d.(gap1 := t[..k]), t[k + 1..]);
      if r.None? then None
      else
        StartsWithStep(t, k, Tail2(r.value));
        r
  }

  /** The pattern tried at the start of `s`: the keyword `stage` in any letter case,
      then the rest of the declaration. */
  function MatchStage(s: string): (r: Option<Decl>)
    ensures r.Some? ==> ValidDecl(r.value) && StartsWith(s, DeclText(r.value))
  {
    if |s| < 5 || Lower(s[..5]) != "stage" then None
    else
      var r := AfterKeyword(Decl(s[..5], "", "", ' ', "", ' ', ""), s[5..]);
      if r.None? then None
      else
        assert s == s[..5] + s[5..];
        r
  }

  lemma {:induction false} SpaceRunExact(w: string, t: string)
    requires AllSpaces(w) && |t| > 0 && !IsSpace(t[0])
    ensures SpaceRun(w + t) == |w|
    decreases |w|
  {
    if |w| == 0 {
      assert w + t == t;
    } else {
      assert (w + t)[0] == w[0];
      assert (w + t)[1..] == w[1..] + t;
      SpaceRunExact(w[1..], t);
    }
  }

  lemma {:induction false} NameRunExact(w: string, t: string)
    requires NoQuotes(w) && |t| > 0 && IsQuote(t[0])
    ensures NameRun(w + t) == |w|
    decreases |w|
  {
    if |w| == 0 {
      assert w + t == t;
    } else {
      assert (w + t)[0] == w[0];
      assert (w + t)[1..] == w[1..] + t;
      NameRunExact(w[1..], t);
    }
  }

  lemma AfterNameComplete(d: Decl, rest: string)
    requires AllSpaces(d.gap3)
    ensures AfterName(d, Tail4(d) + rest) == Some(d)
  {
    var t := Tail4(d) + rest;
    assert t == d.gap3 + (")" + rest);
    SpaceRunExact(d.gap3, ")" + rest);
    assert t[..|d.gap3|] == d.gap3;
  }

  lemma AfterOpenQuoteComplete(d: Decl, x: Decl, rest: string)
    requires x == d.(name := x.name, close := x.close, gap3 := x.gap3)
    requires |x.name| > 0 && NoQuotes(x.name) && IsQuote(x.close) && AllSpaces(x.gap3)
    ensures AfterOpenQuote(d, Tail3(x) + rest) == Some(x)
  {
    var t := Tail3(x) + rest;
    var k := |x.name|;
    assert t == x.name + ([x.close] + (Tail4(x) + rest));
    NameRunExact(x.name, [x.close] + (Tail4(x) + rest));
    assert t[..k] == x.name && t[k] == x.close;
    assert t[k + 1..] == Tail4(x) + rest;
    AfterNameComplete(x, rest);
  }

  lemma AfterParenComplete(d: Decl, x: Decl, rest: string)
    requires x == d.(gap2 := x.gap2, open := x.open, name := x.name, close := x.close, gap3 := x.gap3)
    requires AllSpaces(x.gap2) && IsQuote(x.open)
    requires |x.name| > 0 && NoQuotes(x.name) && IsQuote(x.close) && AllSpaces(x.gap3)
    ensures AfterParen(d, Tail2(x) + rest) == Some(x)
  {
    var t := Tail2(x) + rest;
    var k := |x.gap2|;
    assert t == x.gap2 + ([x.open] + (Tail3(x) + rest));
    SpaceRunExact(x.gap2, [x.open] + (Tail3(x) + rest));
    assert t[..k] == x.gap2 && t[k] == x.open;
    assert t[k + 1..] == Tail3(x) + rest;
    AfterOpenQuoteComplete(d.(gap2 := x.gap2, open := x.open), x, rest);
  }

  lemma AfterKeywordComplete(d: Decl, x: Decl, rest: string)
    requires x == d.(gap1 := x.gap1, gap2 := x.gap2, open := x.open, name := x.name,
                     close := x.close, gap3 := x.gap3)
    requires AllSpaces(x.gap1) && AllSpaces(x.gap2) && IsQuote(x.open)
    requires |x.name| > 0 && NoQuotes(x.name) && IsQuote(x.close) && AllSpaces(x.gap3)
    ensures AfterKeyword(d, Tail1(x) + rest) == Some(x)
  {
    var t := Tail1(x) + rest;
    var k := |x.gap1|;
    assert t == x.gap1 + ("(" + (Tail2(x) + rest));
    SpaceRunExact(x.gap1, "(" + (Tail2(x) + rest));
    assert t[..k] == x.gap1 && t[k] == '(';
    assert t[k + 1..] == Tail2(x) + rest;
    AfterParenComplete(d.(gap1 := x.gap1), x, rest);
  }

  /** Every declaration the pattern describes is matched, and matched whole:
      together with MatchStage's own contract, the scanner and the pattern agree
      on every text. */
  lemma MatchStageComplete(d: Decl, rest: string)
    requires ValidDecl(d)
    ensures MatchStage(DeclText(d) + rest) == Some(d)
  {
    var s := DeclText(d) + rest;
    assert s == d.keyword + (Tail1(d) + rest);
    assert s[..5] == d.keyword;
    assert s[5..] == Tail1(d) + rest;
    AfterKeywordComplete(Decl(d.keyword, "", "", ' ', "", ' ', ""), d, rest);
  }

  /** `re.findall`: the names of all non-overlapping matches, left to right. */
  function Scan(s: string): (names: seq<string>)
    ensures forall i :: 0 <= i < |names| ==> |names[i]| > 0 && NoQuotes(names[i])
    decreases |s|
  {
    if |s| == 0 then []
    else
      match MatchStage(s)
      case Some(d) => [d.name] + Scan(s[|DeclText(d)|..])
      case None => Scan(s[1..])
  }

  lemma ScanNoMatch(s: string)
    requires |s| > 0 && MatchStage(s).None?
    ensures Scan(s) == Scan(s[1..])
  {
  }

  lemma ScanMatch(s: string)
    requires MatchStage(s).Some?
    ensures Scan(s) == [MatchStage(s).value.name] + Scan(s[|DeclText(MatchStage(s).value)|..])
  {
  }

  /** The keyword of a match begins with `s` or `S`. */
  lemma KeywordStart(s: string)
    requires MatchStage(s).Some?
    ensures s[0] == 's' || s[0] == 'S'
  {
    assert Lower(s[..5])[0] == LowerChar(s[0]);
  }

  /** A text that opens with a declaration yields its name first, then the names
      found after it. */
  lemma ScanDecl(d: Decl, rest: string)
    requires ValidDecl(d)
    ensures Scan(DeclText(d) + rest) == [d.name] + Scan(rest)
  {
    MatchStageComplete(d, rest);
    ScanMatch(DeclText(d) + rest);
    assert (DeclText(d) + rest)[|DeclText(d)|..] == rest;
  }

  function Texts(ds: seq<Decl>): string {
    if |ds| == 0 then "" else DeclText(ds[0]) + Texts(ds[1..])
  }

  function Names(ds: seq<Decl>): (names: seq<string>)
    ensures |names| == |ds| && forall i :: 0 <= i < |ds| ==> names[i] == ds[i].name
  {
    if |ds| == 0 then [] else [ds[0].name] + Names(ds[1..])
  }

  /** Declarations written one after another are all extracted, in order, with
      repeated names kept. */
  lemma ScanDecls(ds: seq<Decl>, rest: string)
    requires forall i :: 0 <= i < |ds| ==> ValidDecl(ds[i])
    ensures Scan(Texts(ds) + rest) == Names(ds) + Scan(rest)
  {
    forall d, t | ValidDecl(d) ensures Scan(DeclText(d) + t) == [d.name] + Scan(t) {
      ScanDecl(d, t);
    }
    Concatenated(Scan, ds, rest);
  }

  /** Any reading of texts that takes a declaration off the front, one at a
      time, reads a run of declarations as their names. */
  lemma {:induction false} Concatenated(f: string -> seq<string>, ds: seq<Decl>, rest: string)
    requires forall d, t :: ValidDecl(d) ==> f(DeclText(d) + t) == [d.name] + f(t)
    requires forall i :: 0 <= i < |ds| ==> ValidDecl(ds[i])
    ensures f(Texts(ds) + rest) == Names(ds) + f(rest)
    decreases |ds|
  {
    if |ds| > 0 {
      assert Texts(ds) + rest == DeclText(ds[0]) + (Texts(ds[1..]) + rest);
      Concatenated(f, ds[1..], rest);
      assert Names(ds) == [ds[0].name] + Names(ds[1..]);
    } else {
      assert Texts(ds) + rest == rest;
    }
  }

  /** Text with no `s` or `S` cannot start a match, so it contributes no names. */
  lemma {:induction false} ScanSkip(filler: string, rest: string)
    requires 's' !in filler && 'S' !in filler
    ensures Scan(filler + rest) == Scan(rest)
    decreases |filler|
  {
    if |filler| > 0 {
      var s := filler + rest;
      assert s[0] == filler[0];
      if MatchStage(s).Some? {
        KeywordStart(s);
      }
      ScanNoMatch(s);
      assert s[1..] == filler[1..] + rest;
      ScanSkip(filler[1..], rest);
    } else {
      assert filler + rest == rest;
    }
  }

  /** A match spans at least ten characters, so a text holds at most a tenth of
      its length in stages. */
  lemma {:induction false} ScanBound(s: string)
    ensures 10 * |Scan(s)| <= |s|
    decreases |s|
  {
    if |s| > 0 {
      match MatchStage(s)
      case Some(d) =>
        ScanBound(s[|DeclText(d)|..]);
      case None =>
        ScanBound(s[1..]);
    }
  }

  /** A match needs the keyword at the very start. */
  lemma NoKeywordNoMatch(s: string)
    requires !StartsWith(Lower(s), "stage")
    ensures MatchStage(s).None?
  {
    if |s| >= 5 {
      assert Lower(s)[..5] == Lower(s[..5]);
    }
  }

  /** Without the word `stage`, in any letter case, there are no stages. */
  lemma {:induction false} ScanNeedsKeyword(s: string)
    requires !Contains(Lower(s), "stage")
    ensures Scan(s) == []
    decreases |s|
  {
    if |s| > 0 {
      NoKeywordNoMatch(s);
      ScanNoMatch(s);
      assert Lower(s)[1..] == Lower(s[1..]);
      ScanNeedsKeyword(s[1..]);
    }
  }

  // ---------------------------------------------------------------------------
  // Stages

  /** A stage of the pipeline: its name as written, its kind, and the `sh`
      commands found in its body. */
  datatype Stage = Stage(name: string, kind: StageKind, commands: seq<string>)

  /** The stages of a pipeline file, in match order. `commandsOf(content, name)`
      stands for the command extractor `_extract_stage_commands`. */
  function ParseStages(content: string, commandsOf: (string, string) -> seq<string>): (stages: seq<Stage>)
    ensures |stages| == |Scan(content)|
    ensures forall i :: 0 <= i < |stages| ==>
      && stages[i].name == Scan(content)[i]
      && |stages[i].name| > 0 && NoQuotes(stages[i].name)
      && stages[i].kind == Classify(Lower(stages[i].name))
      && stages[i].commands == commandsOf(content, stages[i].name)
  {
    var names := Scan(content);
    seq(|names|, i requires 0 <= i < |names| =>
      Stage(names[i], Classify(Lower(names[i])), commandsOf(content, names[i])))
  }

  /** Some stage is a delivery stage (the test at jenkins-to-gha-converter.py:352). */
  predicate HasDeliverStage(stages: seq<Stage>) {
    exists i :: 0 <= i < |stages| && stages[i].kind == Deliver
  }
}
