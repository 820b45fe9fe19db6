/**
 * Policy routing rules, as `ip rule show` prints them (ipyroute/rule.py):
 * the rule line grammar and cast table, `construct` (the `all` source
 * prefix), and the keyword arguments `add` and `delete` hand to the tool.
 */
module Rule {
  import opened Common
  import opened Dicts
  import opened Regex
  import opened Values
  import opened Base

  // -----------------------------------------------------------------------
  // The rule grammar

  /** `(lookup (?P<lookup>\w+))?` */
  const LookupGroup: Item := Opt(Cons(Lit("lookup "), Cons(Rep(Word, Plus, Some("lookup")), End)))

  /** The optional groups after the source selector. */
  const AfterSource: Pat :=
    Cons(KeywordGroup("to", "toprefix", NonSpace, Plus),
    Cons(KeywordGroup("fwmark", "fwmark", Word, Plus),
    Cons(LookupGroup, End)))

  /**
   * The optional groups after `pref:\s+`, in their fixed order, with the
   * source and destination prefixes captured by class k.
   */
  function RuleOptions(k: CharClass): Pat {
    Cons(KeywordGroup("from", "fromprefix", k, Plus),
    Cons(KeywordGroup("to", "toprefix", k, Plus),
    Cons(KeywordGroup("fwmark", "fwmark", Word, Plus),
    Cons(LookupGroup, End))))
  }

  function RulePatternOf(k: CharClass): Pat {
    Cons(Rep(Digit, Plus, Some("pref")), Cons(Lit(":"), Cons(Rep(Space, Plus, None), RuleOptions(k))))
  }

  /** The regex as the source writes it: both prefixes are `\w+`. */
  const RulePatternAsWritten: Pat := RulePatternOf(Word)

  /** The corrected regex: both prefixes as `\S+`, so that they can hold a network. */
  const FixedRulePattern: Pat := RulePatternOf(NonSpace)

  const RuleGroups: seq<string> := ["pref", "fromprefix", "toprefix", "fwmark", "lookup"]

  /** pref is an int, the two prefixes are IPNetworks, fwmark and lookup stay text. */
  const RuleCasts: map<string, Cast> := map["pref" := IntCast, "fromprefix" := NetworkCast, "toprefix" := NetworkCast]

  const RuleDigits: map<string, CharClass> := map["pref" := Digit]

  /** The keyword order `add` and `delete` pass their arguments in. */
  const RuleOrder: seq<string> := ["from", "fwmark", "lookup", "pref"]

  /**
   * A rule class: its name and the zero prefix `all` and `any` stand for
   * (`_allprefix`), which the base class Rule does not define.
   */
  datatype RuleClass = RuleClass(kind: string, allprefix: Option<string>)

  const Rule: RuleClass := RuleClass("Rule", None)
  const Rule4: RuleClass := RuleClass("Rule4", Some("0.0.0.0/0"))
  const Rule6: RuleClass := RuleClass("Rule6", Some("::/0"))

  /** A rule class's kind with its prefixes captured by class k. */
  function RuleSchemaOf(rc: RuleClass, k: CharClass): Schema {
    Schema(rc.kind, RulePatternOf(k), RuleCasts)
  }

  /** The rule kinds as the source defines them: prefixes are `\w+`. */
  function RuleSchema(rc: RuleClass): Schema {
    RuleSchemaOf(rc, Word)
  }

  /** The rule kinds with the corrected prefix class `\S+`. */
  function FixedRuleSchema(rc: RuleClass): Schema {
    RuleSchemaOf(rc, NonSpace)
  }

  lemma RuleOptionNames(k: CharClass)
    ensures Names(RuleOptions(k)) == ["fromprefix", "toprefix", "fwmark", "lookup"]
  {
  }

  lemma RulePatternGroups(k: CharClass)
    ensures Names(RulePatternOf(k)) == RuleGroups
  {
    RuleOptionNames(k);
  }

  lemma RuleGroupsDistinct()
    ensures NoDuplicates(RuleGroups)
  {
  }

  lemma RuleGroupsUnique(rc: RuleClass, k: CharClass)
    ensures WellFormed(RuleSchemaOf(rc, k))
  {
    RulePatternGroups(k);
    RuleGroupsDistinct();
  }

  lemma RulePatternRequired(k: CharClass)
    ensures "pref" in Required(RulePatternOf(k))
  {
  }

  lemma RulePatternClassed(k: CharClass)
    ensures Classed(RulePatternOf(k), RuleDigits)
  {
  }

  lemma RuleOptionsOptional(k: CharClass)
    ensures AllOptional(RuleOptions(k))
  {
  }

  /** `\d+:\s` at the start of the line. */
  predicate RuleHead(line: string) {
    var n := Run(line, 0, Digit, Plus);
    1 <= n && n + 1 < |line| && line[n] == ':' && IsSpace(line[n + 1])
  }

  /**
   * A line is a rule line exactly when it starts with the preference (a
   * run of digits), a colon and a blank; every other group is optional,
   * so nothing else can make the match fail.
   */
  lemma RuleMatches(k: CharClass, line: string)
    ensures Match(RulePatternOf(k), line, 0, map[]).Some? <==> RuleHead(line)
  {
    RuleOptionsOptional(k);
    if RuleHead(line) {
      HeadFound(RuleOptions(k), line);
    } else {
      HeadFails(RuleOptions(k), line);
    }
  }

  lemma HeadFound(opts: Pat, line: string)
    requires AllOptional(opts) && RuleHead(line)
    ensures Match(Cons(Rep(Digit, Plus, Some("pref")), Cons(Lit(":"), Cons(Rep(Space, Plus, None), opts))), line, 0, map[]).Some?
  {
    var n := Run(line, 0, Digit, Plus);
    var env := Bind(map[], Some("pref"), 0, n);
    var rest := Cons(Lit(":"), Cons(Rep(Space, Plus, None), opts));
    assert Match(rest, line, n, env).Some? by {
      BlankThenOptional(opts, line, n + 1, env);
      assert line[n..n + 1] == ":";
      LitStep(":", Cons(Rep(Space, Plus, None), opts), line, n, env);
    }
    RepFinds(Digit, Plus, Some("pref"), rest, line, 0, map[], n);
  }

  lemma HeadFails(opts: Pat, line: string)
    requires !RuleHead(line)
    ensures Match(Cons(Rep(Digit, Plus, Some("pref")), Cons(Lit(":"), Cons(Rep(Space, Plus, None), opts))), line, 0, map[]).None?
  {
    var n := Run(line, 0, Digit, Plus);
    var rest := Cons(Lit(":"), Cons(Rep(Space, Plus, None), opts));
    var j := RepStep(Digit, Plus, Some("pref"), rest, line, 0, map[]);
    if n >= 1 {
      var env := Bind(map[], Some("pref"), 0, j);
      if j + 1 <= |line| && LitAt(line, j, ":") {
        assert line[j] == ':';
        var k := RepStep(Space, Plus, None, opts, line, j + 1, env);
      }
    }
  }

  /**
   * Parsing a rule line: it raises the no-match error exactly when the
   * line does not start with the preference, a colon and a blank. The
   * preference always parses as an int, so the only casts that can fail
   * are those of the two prefixes. This holds for the prefixes as written
   * (k is Word) and for the corrected class alike.
   */
  lemma RuleFromString(rc: RuleClass, k: CharClass, line: string, lib: NetLib)
    ensures var r := FromString(RuleSchemaOf(rc, k), line, lib);
      r.Err? && r.error.NoMatch? <==> !RuleHead(line)
    ensures var r := FromString(RuleSchemaOf(rc, k), line, lib);
      r.Err? && !r.error.NoMatch? ==> r.error.CastFailure? && r.error.key in {"fromprefix", "toprefix"}
  {
    RuleMatches(k, line);
    var sc := RuleSchemaOf(rc, k);
    if FromString(sc, line, lib).Err? && Match(RulePatternOf(k), line, 0, map[]).Some? {
      RuleGroupsUnique(rc, k);
      RulePatternClassed(k);
      MatchedFailure(sc, line, lib, RuleDigits);
      RuleCastTable();
    }
  }

  /**
   * The attributes of a parsed rule, by the kind of value each holds, for
   * the prefixes as written and corrected alike.
   */
  lemma RuleFields(rc: RuleClass, k: CharClass, line: string, lib: NetLib, n: string)
    requires FromString(RuleSchemaOf(rc, k), line, lib).Ok? && n in RuleGroups
    ensures Lookup(FromString(RuleSchemaOf(rc, k), line, lib).value.fields, n).Some?
    ensures var v := Lookup(FromString(RuleSchemaOf(rc, k), line, lib).value.fields, n).value;
      && (n == "pref" ==> v.Int? && v.num >= 0)
      && (n in {"fromprefix", "toprefix"} ==> v == Null || v.Network?)
      && (n in {"fwmark", "lookup"} ==> v == Null || v.Text?)
  {
    RulePatternGroups(k);
    RuleGroupsUnique(rc, k);
    RulePatternRequired(k);
    FieldValue(RuleSchemaOf(rc, k), line, lib, n);
    RuleCastTable();
  }

  /** Which groups the rule table casts, and to what. */
  lemma RuleCastTable()
    ensures forall k :: k in RuleCasts ==> k in {"pref", "fromprefix", "toprefix"}
    ensures RuleCasts["pref"] == IntCast && "pref" in RuleDigits && RuleDigits["pref"] == Digit
    ensures RuleCasts["fromprefix"] == NetworkCast && RuleCasts["toprefix"] == NetworkCast
    ensures "fwmark" !in RuleCasts && "lookup" !in RuleCasts
  {
  }

  // -----------------------------------------------------------------------
  // The source selector `from <prefix>`

  /** A rule line whose first selector is `from tok`: `pref:blanks from tok tail`. */
  function SourceLine(pref: string, blanks: string, tok: string, tail: string): string {
    pref + ":" + blanks + "from " + tok + tail
  }

  /**
   * The pieces of such a line: the preference is digits, the blanks are
   * blank, the token has no blank in it, and a blank follows it.
   */
  predicate SourceShaped(pref: string, blanks: string, tok: string, tail: string) {
    && pref != [] && AllDigits(pref)
    && blanks != [] && (forall i :: 0 <= i < |blanks| ==> IsSpace(blanks[i]))
    && tok != [] && (forall i :: 0 <= i < |tok| ==> !IsSpace(tok[i]))
    && tail != [] && IsSpace(tail[0])
  }

  /** Where the pieces of a source line sit. */
  lemma SourceLineAt(pref: string, blanks: string, tok: string, tail: string)
    requires SourceShaped(pref, blanks, tok, tail)
    ensures var line := SourceLine(pref, blanks, tok, tail);
      var a := |pref| + 1 + |blanks|;
      && |line| == a + 5 + |tok| + |tail|
      && (forall i :: 0 <= i < |pref| ==> IsDigit(line[i]))
      && line[|pref|] == ':'
      && (forall i :: |pref| + 1 <= i < a ==> IsSpace(line[i]))
      && line[a..a + 5] == "from "
      && line[a] == 'f'
      && (forall i :: a + 5 <= i < a + 5 + |tok| ==> !IsSpace(line[i]))
      && line[a + 5 .. a + 5 + |tok|] == tok
      && IsSpace(line[a + 5 + |tok|])
  {
    var line := SourceLine(pref, blanks, tok, tail);
    var a := |pref| + 1 + |blanks|;
    var head := pref + ":" + blanks;
    var rest := "from " + tok + tail;
    assert line == head + rest;
    assert |head| == a;
    forall i | 0 <= i < |pref| ensures IsDigit(line[i]) {
      assert line[i] == head[i] == pref[i];
    }
    forall i | |pref| + 1 <= i < a ensures IsSpace(line[i]) {
      assert line[i] == head[i] == blanks[i - |pref| - 1];
    }
    forall i | a + 5 <= i < a + 5 + |tok| ensures !IsSpace(line[i]) {
      assert line[i] == rest[i - a] == tok[i - a - 5];
    }
    assert rest[5..5 + |tok|] == tok;
    assert line[a + 5 + |tok|] == rest[5 + |tok|] == tail[0];
  }

  /** The runs the pattern's repetitions find on a source line. */
  lemma SourceLineRuns(pref: string, blanks: string, tok: string, tail: string)
    requires SourceShaped(pref, blanks, tok, tail)
    ensures var line := SourceLine(pref, blanks, tok, tail);
      var a := |pref| + 1 + |blanks|;
      && Run(line, 0, Digit, Plus) == |pref|
      && Run(line, |pref| + 1, Space, Plus) == |blanks|
      && Run(line, a + 5, NonSpace, Plus) == |tok|
  {
    PrefRun(pref, blanks, tok, tail);
    BlankRun(pref, blanks, tok, tail);
    TokRun(pref, blanks, tok, tail);
  }

  lemma PrefRun(pref: string, blanks: string, tok: string, tail: string)
    requires SourceShaped(pref, blanks, tok, tail)
    ensures Run(SourceLine(pref, blanks, tok, tail), 0, Digit, Plus) == |pref|
  {
    SourceLineAt(pref, blanks, tok, tail);
    RunIs(SourceLine(pref, blanks, tok, tail), 0, Digit, Plus, |pref|);
  }

  lemma BlankRun(pref: string, blanks: string, tok: string, tail: string)
    requires SourceShaped(pref, blanks, tok, tail)
    ensures Run(SourceLine(pref, blanks, tok, tail), |pref| + 1, Space, Plus) == |blanks|
  {
    SourceLineAt(pref, blanks, tok, tail);
    RunIs(SourceLine(pref, blanks, tok, tail), |pref| + 1, Space, Plus, |blanks|);
  }

  lemma TokRun(pref: string, blanks: string, tok: string, tail: string)
    requires SourceShaped(pref, blanks, tok, tail)
    ensures Run(SourceLine(pref, blanks, tok, tail), |pref| + 1 + |blanks| + 5, NonSpace, Plus) == |tok|
  {
    SourceLineAt(pref, blanks, tok, tail);
    RunIs(SourceLine(pref, blanks, tok, tail), |pref| + 1 + |blanks| + 5, NonSpace, Plus, |tok|);
  }

  lemma AfterSourceFacts()
    ensures RuleOptions(NonSpace) == Cons(KeywordGroup("from", "fromprefix", NonSpace, Plus), AfterSource)
    ensures AllOptional(AfterSource)
    ensures Names(AfterSource) == ["toprefix", "fwmark", "lookup"]
  {
  }

  /**
   * With prefixes read as `\S+`, a line `pref: from tok ...` matches and
   * its source prefix is exactly tok, whatever characters tok holds.
   */
  lemma RuleCapturesSource(pref: string, blanks: string, tok: string, tail: string)
    requires SourceShaped(pref, blanks, tok, tail)
    ensures CapturesAs(FixedRulePattern, SourceLine(pref, blanks, tok, tail), "fromprefix", tok)
  {
    var line := SourceLine(pref, blanks, tok, tail);
    SourceLineHead(pref, blanks, tok, tail, line);
    CapturesToken(line, |pref|, |blanks|, tok);
  }

  /** p matches line from its start, and the text it captures under key is tok. */
  ghost predicate CapturesAs(p: Pat, line: string, key: string, tok: string) {
    && Match(p, line, 0, map[]).Some?
    && var env := Match(p, line, 0, map[]).value.0;
    && key in env
    && env[key].0 <= env[key].1 <= |line|
    && Captured(line, env[key]) == tok
  }

  /**
   * line opens with n digits, a colon, b blanks and `from `, then tok
   * followed by a blank.
   */
  ghost predicate HeadShaped(line: string, n: nat, b: nat, tok: string) {
    && n + 1 + b + 5 + |tok| < |line|
    && Run(line, 0, Digit, Plus) == n >= 1 && line[n] == ':' && Run(line, n + 1, Space, Plus) == b >= 1
    && line[n + 1 + b..n + 1 + b + 5] == "from "
    && Run(line, n + 1 + b + 5, NonSpace, Plus) == |tok| >= 1 && IsSpace(line[n + 1 + b + 5 + |tok|])
    && line[n + 1 + b + 5..n + 1 + b + 5 + |tok|] == tok
  }

  /** What a source line shows at the positions the pattern looks at. */
  lemma SourceLineHead(pref: string, blanks: string, tok: string, tail: string, line: string)
    requires SourceShaped(pref, blanks, tok, tail) && line == SourceLine(pref, blanks, tok, tail)
    ensures HeadShaped(line, |pref|, |blanks|, tok)
  {
    SourceLineAt(pref, blanks, tok, tail);
    SourceLineRuns(pref, blanks, tok, tail);
  }

  /** By position: the token after `from ` is what the pattern captures. */
  lemma CapturesToken(line: string, n: nat, b: nat, tok: string)
    requires HeadShaped(line, n, b, tok)
    ensures CapturesAs(FixedRulePattern, line, "fromprefix", tok)
  {
    CapturesAt(line, n, b, |tok|);
  }

  /**
   * The same, by position: the preference is n digits, the blanks b long,
   * and the token after `from ` t characters long.
   */
  lemma CapturesAt(line: string, n: nat, b: nat, t: nat)
    requires n + 1 + b + 5 + t < |line|
    requires Run(line, 0, Digit, Plus) == n >= 1 && line[n] == ':' && Run(line, n + 1, Space, Plus) == b >= 1
    requires line[n + 1 + b..n + 1 + b + 5] == "from "
    requires Run(line, n + 1 + b + 5, NonSpace, Plus) == t >= 1 && IsSpace(line[n + 1 + b + 5 + t])
    ensures Match(FixedRulePattern, line, 0, map[]).Some?
    ensures "fromprefix" in Match(FixedRulePattern, line, 0, map[]).value.0
    ensures Match(FixedRulePattern, line, 0, map[]).value.0["fromprefix"] == (n + 1 + b + 5, n + 1 + b + 5 + t)
  {
    AfterSourceFacts();
    var p := Cons(Rep(Digit, Plus, Some("pref")), Cons(Lit(":"), Cons(Rep(Space, Plus, None),
      Cons(KeywordGroup("from", "fromprefix", NonSpace, Plus), AfterSource))));
    assert FixedRulePattern == p;
    CapturesAfterHead("from", "fromprefix", AfterSource, line, n, b, t);
  }

  /**
   * `\d+:\s+(keyword (?P<name>\S+)\s+)?` and optional parts: on a line with
   * the keyword and a token after the head, name captures the token.
   */
  lemma CapturesAfterHead(keyword: string, name: string, rest: Pat, line: string, n: nat, b: nat, t: nat)
    requires AllOptional(rest) && name !in Names(rest)
    requires n + 1 + b + |keyword| + 1 + t < |line|
    requires Run(line, 0, Digit, Plus) == n >= 1 && line[n] == ':' && Run(line, n + 1, Space, Plus) == b >= 1
    requires line[n + 1 + b..n + 1 + b + |keyword| + 1] == keyword + " "
    requires Run(line, n + 1 + b + |keyword| + 1, NonSpace, Plus) == t >= 1 && IsSpace(line[n + 1 + b + |keyword| + 1 + t])
    ensures var p := Cons(Rep(Digit, Plus, Some("pref")), Cons(Lit(":"), Cons(Rep(Space, Plus, None),
      Cons(KeywordGroup(keyword, name, NonSpace, Plus), rest))));
      && Match(p, line, 0, map[]).Some?
      && name in Match(p, line, 0, map[]).value.0
      && Match(p, line, 0, map[]).value.0[name] == (n + 1 + b + |keyword| + 1, n + 1 + b + |keyword| + 1 + t)
  {
    var envP := Bind(map[], Some("pref"), 0, n);
    var opts := Cons(KeywordGroup(keyword, name, NonSpace, Plus), rest);
    KeywordCaptures(keyword, name, NonSpace, rest, line, n + 1 + b, t, envP);
    HeadLifts(opts, line, n, b);
  }

  /**
   * The preference, colon and blanks keep their whole runs when the
   * options match after them.
   */
  lemma HeadLifts(opts: Pat, line: string, n: nat, b: nat)
    requires n + 1 + b <= |line|
    requires Run(line, 0, Digit, Plus) == n >= 1 && line[n] == ':' && Run(line, n + 1, Space, Plus) == b >= 1
    requires Match(opts, line, n + 1 + b, Bind(map[], Some("pref"), 0, n)).Some?
    ensures Match(Cons(Rep(Digit, Plus, Some("pref")), Cons(Lit(":"), Cons(Rep(Space, Plus, None), opts))), line, 0, map[]) ==
      Match(opts, line, n + 1 + b, Bind(map[], Some("pref"), 0, n))
  {
    var env := Bind(map[], Some("pref"), 0, n);
    ColonBlank(opts, line, n, b, env);
    RepTakesAll(Digit, Some("pref"), Cons(Lit(":"), Cons(Rep(Space, Plus, None), opts)), line, 0, n, map[]);
  }

  /** The colon and the blanks after it are consumed whole. */
  lemma ColonBlank(opts: Pat, line: string, n: nat, b: nat, env: Env)
    requires n + 1 + b <= |line| && SpansIn(env, |line|)
    requires line[n] == ':' && Run(line, n + 1, Space, Plus) == b >= 1
    requires Match(opts, line, n + 1 + b, env).Some?
    ensures Match(Cons(Lit(":"), Cons(Rep(Space, Plus, None), opts)), line, n, env) ==
      Match(opts, line, n + 1 + b, env)
  {
    RepTakesAll(Space, None, opts, line, n + 1, b, env);
    assert line[n..n + 1] == ":";
    LitStep(":", Cons(Rep(Space, Plus, None), opts), line, n, env);
  }

  /**
   * As written, a captured prefix is a run of word characters: the
   * pattern matches, so no error is raised, yet a source prefix holding a
   * dot, a colon or a slash is never captured.
   */
  lemma RuleAsWrittenLosesSource(pref: string, blanks: string, tok: string, tail: string, i: nat)
    requires SourceShaped(pref, blanks, tok, tail) && i < |tok| && !IsWordChar(tok[i])
    ensures Match(RulePatternAsWritten, SourceLine(pref, blanks, tok, tail), 0, map[]).Some?
    ensures !CapturesAs(RulePatternAsWritten, SourceLine(pref, blanks, tok, tail), "fromprefix", tok)
  {
    var line := SourceLine(pref, blanks, tok, tail);
    SourceLineAt(pref, blanks, tok, tail);
    PrefRun(pref, blanks, tok, tail);
    assert RuleHead(line);
    RuleMatches(Word, line);
    WordCaptures(line);
  }

  /**
   * As written, on a line `pref: from tok ...` whose token holds a
   * character outside `\w` (the dot of an IPv4 prefix, the colon of an
   * IPv6 one, the slash before a length), the source group cannot reach a
   * blank and is skipped. The groups after it expect `to`, `fwmark` or
   * `lookup` where the line says `from`, so the match ends after the
   * preference: the line parses without error, and the source prefix,
   * the destination, the mark and the table are all None.
   */
  lemma RuleAsWrittenParsed(rc: RuleClass, pref: string, blanks: string, tok: string, tail: string, lib: NetLib, i: nat)
    requires SourceShaped(pref, blanks, tok, tail) && i < |tok| && !IsWordChar(tok[i])
    ensures var r := FromString(RuleSchema(rc), SourceLine(pref, blanks, tok, tail), lib);
      && r.Ok?
      && Keys(r.value.fields) == RuleGroups
      && forall n :: n in RuleGroups && n != "pref" ==> Lookup(r.value.fields, n) == Some(Null)
  {
    var line := SourceLine(pref, blanks, tok, tail);
    AsWrittenSourceMatch(pref, blanks, tok, tail, i, line);
    PrefOnly(rc, line, lib, |pref|);
  }

  /**
   * As written, `0:<tab>from 10.0.0.0/8 lookup main` parses, but its
   * source prefix and its table both come out as None.
   */
  lemma AsWrittenLosesLookup(rc: RuleClass, lib: NetLib)
    ensures var r := FromString(RuleSchema(rc), "0:\tfrom 10.0.0.0/8 lookup main", lib);
      && r.Ok?
      && Lookup(r.value.fields, "fromprefix") == Some(Null)
      && Lookup(r.value.fields, "lookup") == Some(Null)
  {
    SampleSourceLine();
    RuleAsWrittenParsed(rc, "0", "\t", "10.0.0.0/8", " lookup main", lib, 2);
  }

  lemma SampleSourceLine()
    ensures SourceShaped("0", "\t", "10.0.0.0/8", " lookup main")
    ensures SourceLine("0", "\t", "10.0.0.0/8", " lookup main") == "0:\tfrom 10.0.0.0/8 lookup main"
    ensures !IsWordChar("10.0.0.0/8"[2])
  {
  }

  /** As written, such a line matches through its preference only. */
  lemma AsWrittenSourceMatch(pref: string, blanks: string, tok: string, tail: string, i: nat, line: string)
    requires SourceShaped(pref, blanks, tok, tail) && i < |tok| && !IsWordChar(tok[i])
    requires line == SourceLine(pref, blanks, tok, tail)
    ensures Match(RulePatternOf(Word), line, 0, map[]).Some?
    ensures Match(RulePatternOf(Word), line, 0, map[]).value.0 == map["pref" := (0, |pref|)]
  {
    SourceLineHead(pref, blanks, tok, tail, line);
    AsWrittenHead(line, |pref|, |blanks|, tok, i);
  }

  /** The same, by position. */
  lemma AsWrittenHead(line: string, n: nat, b: nat, tok: string, i: nat)
    requires HeadShaped(line, n, b, tok) && i < |tok| && !IsWordChar(tok[i])
    ensures Match(RulePatternOf(Word), line, 0, map[]).Some?
    ensures Match(RulePatternOf(Word), line, 0, map[]).value.0 == map["pref" := (0, n)]
  {
    WordRunShort(line, n + 1 + b + 5, tok, i);
    AsWrittenMatch(line, n, b, |tok|);
  }

  /** A word run starting at a copy of tok stops at or before tok's first non-word character. */
  lemma WordRunShort(line: string, a: nat, tok: string, i: nat)
    requires a + |tok| <= |line| && line[a..a + |tok|] == tok
    requires i < |tok| && !IsWordChar(tok[i])
    ensures Run(line, a, Word, Plus) <= i
  {
    assert line[a + i] == tok[i];
  }

  /**
   * By position: after the preference (n digits), the colon and b blanks,
   * the line reads `from ` and a blank-free token of t characters that is
   * no run of word characters; the match stops after the blanks, with
   * only the preference captured.
   */
  lemma AsWrittenMatch(line: string, n: nat, b: nat, t: nat)
    requires n + 1 + b + 5 + t < |line|
    requires Run(line, 0, Digit, Plus) == n >= 1 && line[n] == ':' && Run(line, n + 1, Space, Plus) == b >= 1
    requires line[n + 1 + b..n + 1 + b + 5] == "from "
    requires Run(line, n + 1 + b + 5, NonSpace, Plus) == t && Run(line, n + 1 + b + 5, Word, Plus) < t
    ensures Match(RulePatternOf(Word), line, 0, map[]) == Some((map["pref" := (0, n)], n + 1 + b))
  {
    var a := n + 1 + b;
    var env := Bind(map[], Some("pref"), 0, n);
    SelectorsSkipped(line, a, env, t);
    HeadLifts(RuleOptions(Word), line, n, b);
  }

  /**
   * As written, after the head of a line whose next word is `from`
   * followed by a token holding a non-word character, every optional
   * group is skipped and nothing more is consumed.
   */
  lemma SelectorsSkipped(line: string, a: nat, env: Env, t: nat)
    requires a + 5 + t < |line| && SpansIn(env, |line|)
    requires line[a..a + 5] == "from "
    requires Run(line, a + 5, Word, Plus) < t
    requires Run(line, a + 5, NonSpace, Plus) == t
    ensures Match(RuleOptions(Word), line, a, env) == Some((env, a))
  {
    var to := Cons(KeywordGroup("to", "toprefix", Word, Plus),
      Cons(KeywordGroup("fwmark", "fwmark", Word, Plus), Cons(LookupGroup, End)));
    assert RuleOptions(Word) == Cons(KeywordGroup("from", "fromprefix", Word, Plus), to);
    SourceSkipped(line, a, env, t, to);
    assert line[a] == 'f' && line[a + 1] == 'r' by {
      assert line[a..a + 5][0] == line[a] && line[a..a + 5][1] == line[a + 1];
    }
    OthersSkipped(line, a, env);
  }

  /** As written, `(from (?P<fromprefix>\w+)\s+)?` is skipped before a token that is no word run. */
  lemma SourceSkipped(line: string, a: nat, env: Env, t: nat, rest: Pat)
    requires a + 5 + t < |line| && SpansIn(env, |line|)
    requires line[a..a + 5] == "from "
    requires Run(line, a + 5, Word, Plus) < t
    requires Run(line, a + 5, NonSpace, Plus) == t
    ensures Match(Cons(KeywordGroup("from", "fromprefix", Word, Plus), rest), line, a, env) == Match(rest, line, a, env)
  {
    var v := a + 5;
    forall x | v < x <= v + Run(line, v, Word, Plus) ensures !IsSpace(line[x]) {
      assert InClass(line[x], NonSpace);
    }
    KeywordUnended("from", "fromprefix", Word, rest, line, a, env);
  }

  /** As written, the destination, mark and table groups are skipped where the line says `fr`. */
  lemma OthersSkipped(line: string, a: nat, env: Env)
    requires a + 1 < |line| && SpansIn(env, |line|)
    requires line[a] == 'f' && line[a + 1] == 'r'
    ensures Match(Cons(KeywordGroup("to", "toprefix", Word, Plus),
      Cons(KeywordGroup("fwmark", "fwmark", Word, Plus), Cons(LookupGroup, End))), line, a, env) == Some((env, a))
  {
    var lookup := Cons(LookupGroup, End);
    var fwmark := Cons(KeywordGroup("fwmark", "fwmark", Word, Plus), lookup);
    OptLitAbsent("to ", Cons(Rep(Word, Plus, Some("toprefix")), Cons(Rep(Space, Plus, None), End)), fwmark, line, a, env);
    assert !LitAt(line, a + 1, "wmark ");
    OptLitAbsent("fwmark ", Cons(Rep(Word, Plus, Some("fwmark")), Cons(Rep(Space, Plus, None), End)), lookup, line, a, env);
    OptLitAbsent("lookup ", Cons(Rep(Word, Plus, Some("lookup")), End), End, line, a, env);
  }

  /**
   * As written, a line the pattern matches through the preference alone
   * parses into a rule whose other groups are all None.
   */
  lemma PrefOnlyOk(rc: RuleClass, line: string, lib: NetLib, n: nat)
    requires Match(RulePatternOf(Word), line, 0, map[]).Some?
    requires Match(RulePatternOf(Word), line, 0, map[]).value.0 == map["pref" := (0, n)]
    ensures FromString(RuleSchema(rc), line, lib).Ok?
  {
    var sc := RuleSchema(rc);
    var env := map["pref" := (0, n)];
    RuleGroupsUnique(rc, Word);
    RulePatternGroups(Word);
    RulePatternClassed(Word);
    RuleCastTable();
    DigitCastSucceeds(sc, line, lib, RuleDigits, "pref");
    FromStringFields(sc, line, lib);
    var kw := GroupArgs(RuleGroups, line, env);
    forall j | 0 <= j < |kw| ensures Converted(kw[j].0, kw[j].1, sc.casts, lib).Ok? {
      if j > 0 {
        assert kw[j].1 == GroupValue(line, env, RuleGroups[j]) == Null;
      }
    }
  }

  lemma PrefOnly(rc: RuleClass, line: string, lib: NetLib, n: nat)
    requires Match(RulePatternOf(Word), line, 0, map[]).Some?
    requires Match(RulePatternOf(Word), line, 0, map[]).value.0 == map["pref" := (0, n)]
    ensures var r := FromString(RuleSchema(rc), line, lib);
      && r.Ok?
      && Keys(r.value.fields) == RuleGroups
      && forall g :: g in RuleGroups && g != "pref" ==> Lookup(r.value.fields, g) == Some(Null)
  {
    var sc := RuleSchema(rc);
    RuleGroupsUnique(rc, Word);
    RulePatternGroups(Word);
    PrefOnlyOk(rc, line, lib, n);
    FromStringFields(sc, line, lib);
    forall g | g in RuleGroups && g != "pref" ensures Lookup(FromString(sc, line, lib).value.fields, g) == Some(Null) {
      PrefOnlyNull(rc, line, lib, n, g);
    }
  }

  /** Each group the match did not reach is stored as None. */
  lemma PrefOnlyNull(rc: RuleClass, line: string, lib: NetLib, n: nat, g: string)
    requires Match(RulePatternOf(Word), line, 0, map[]).Some?
    requires Match(RulePatternOf(Word), line, 0, map[]).value.0 == map["pref" := (0, n)]
    requires g in RuleGroups && g != "pref"
    ensures FromString(RuleSchema(rc), line, lib).Ok?
    ensures Lookup(FromString(RuleSchema(rc), line, lib).value.fields, g) == Some(Null)
  {
    RuleGroupsUnique(rc, Word);
    RulePatternGroups(Word);
    PrefOnlyOk(rc, line, lib, n);
    FromStringLookup(RuleSchema(rc), line, lib, g);
  }

  /** As written, every source prefix the pattern captures is a run of word characters. */
  lemma WordCaptures(line: string)
    requires Match(RulePatternAsWritten, line, 0, map[]).Some?
    ensures var env := Match(RulePatternAsWritten, line, 0, map[]).value.0;
      "fromprefix" in env ==>
        && env["fromprefix"].0 <= env["fromprefix"].1 <= |line|
        && forall i :: 0 <= i < |Captured(line, env["fromprefix"])| ==> IsWordChar(Captured(line, env["fromprefix"])[i])
  {
    var cm := map["fromprefix" := Word];
    assert Classed(RulePatternAsWritten, cm);
    MatchFits(RulePatternAsWritten, line, 0, map[], cm);
  }

  /**
   * With the corrected prefixes, a parsed rule whose line reads `from tok`
   * holds tok's network as its source prefix, and the line fails to parse
   * when tok is no network.
   */
  lemma RuleSourceParsed(rc: RuleClass, pref: string, blanks: string, tok: string, tail: string, lib: NetLib)
    requires SourceShaped(pref, blanks, tok, tail)
    ensures var r := FromString(FixedRuleSchema(rc), SourceLine(pref, blanks, tok, tail), lib);
      && (r.Ok? ==> lib.network(tok).Some? && Lookup(r.value.fields, "fromprefix") == Some(Network(lib.network(tok).value)))
      && (lib.network(tok).None? ==> r.Err?)
  {
    var line := SourceLine(pref, blanks, tok, tail);
    var sc := FixedRuleSchema(rc);
    RuleCapturesSource(pref, blanks, tok, tail);
    RuleGroupsUnique(rc, NonSpace);
    RulePatternGroups(NonSpace);
    var env := Match(FixedRulePattern, line, 0, map[]).value.0;
    MatchInBounds(FixedRulePattern, line, 0, map[]);
    assert GroupValue(line, env, "fromprefix") == Text(tok);
    RuleCastTable();
    if FromString(sc, line, lib).Ok? {
      FromStringLookup(sc, line, lib, "fromprefix");
    } else {
      FromStringFields(sc, line, lib);
      SourceCastFails(sc, line, lib, env, tok);
    }
  }

  lemma SourceCastFails(sc: Schema, line: string, lib: NetLib, env: Env, tok: string)
    requires sc.casts == RuleCasts && Names(sc.pattern) == RuleGroups && SpansIn(env, |line|)
    requires GroupValue(line, env, "fromprefix") == Text(tok)
    ensures var kw := GroupArgs(Names(sc.pattern), line, env);
      lib.network(tok).None? ==> Converted(kw[1].0, kw[1].1, sc.casts, lib).Err?
  {
    RuleCastTable();
  }

  // -----------------------------------------------------------------------
  // construct

  /**
   * The keyword arguments `construct` passes on: a source prefix `all`
   * replaced by the class's zero prefix (an AttributeError on the plain
   * Rule class, which has none).
   */
  function RuleArgs(rc: RuleClass, result: Dict<Value>): Result<Dict<Value>, Error> {
    if Lookup(result, "fromprefix") == Some(Text("all")) then
      if rc.allprefix.None? then Err(AttributeError("_allprefix"))
      else Ok(Put(result, "fromprefix", Text(rc.allprefix.value)))
    else Ok(result)
  }

  /** `Rule.construct(result, line)`: the adjusted arguments, then the record. */
  function RuleConstruct(rc: RuleClass, result: Dict<Value>, lib: NetLib): Result<Record, Error> {
    var kw :- RuleArgs(rc, result);
    Construct(rc.kind, kw, RuleCasts, lib)
  }

  /**
   * The arguments are the parsed ones with only the source prefix changed,
   * and that only when it is `all`; only the plain class fails on it.
   */
  lemma RuleArgsFields(rc: RuleClass, result: Dict<Value>)
    requires Distinct(result)
    ensures RuleArgs(rc, result).Err? <==> Lookup(result, "fromprefix") == Some(Text("all")) && rc.allprefix.None?
    ensures RuleArgs(rc, result).Err? ==> RuleArgs(rc, result).error == AttributeError("_allprefix")
    ensures RuleArgs(rc, result).Ok? ==>
      var kw := RuleArgs(rc, result).value;
      && Distinct(kw)
      && Keys(kw) == Keys(result)
      && Lookup(kw, "fromprefix") == (if Lookup(result, "fromprefix") == Some(Text("all"))
                                      then Some(Text(rc.allprefix.value)) else Lookup(result, "fromprefix"))
      && forall k :: k != "fromprefix" ==> Lookup(kw, k) == Lookup(result, k)
  {
    if Lookup(result, "fromprefix") == Some(Text("all")) && rc.allprefix.Some? {
      var kw := Put(result, "fromprefix", Text(rc.allprefix.value));
      PutDistinct(result, "fromprefix", Text(rc.allprefix.value));
      SameKeys(kw, result);
    }
  }

  /**
   * A constructed rule has the class's kind, and its source prefix is the
   * converted zero prefix when the line said `all` and the converted
   * parsed prefix otherwise.
   */
  lemma RuleConstructFields(rc: RuleClass, result: Dict<Value>, lib: NetLib)
    requires Distinct(result) && RuleConstruct(rc, result, lib).Ok?
    ensures var r := RuleConstruct(rc, result, lib).value;
      && r.kind == rc.kind
      && (Lookup(result, "fromprefix") == Some(Text("all")) ==>
            rc.allprefix.Some? && lib.network(rc.allprefix.value).Some? &&
            Lookup(r.fields, "fromprefix") == Some(Network(lib.network(rc.allprefix.value).value)))
      && (Lookup(result, "fromprefix") != Some(Text("all")) && Lookup(result, "fromprefix").Some? ==>
            && Converted("fromprefix", Lookup(result, "fromprefix").value, RuleCasts, lib).Ok?
            && Lookup(r.fields, "fromprefix") ==
                 Some(Converted("fromprefix", Lookup(result, "fromprefix").value, RuleCasts, lib).value))
  {
    RuleArgsFields(rc, result);
    var kw := RuleArgs(rc, result).value;
    ConstructLookup(rc.kind, kw, RuleCasts, lib, "fromprefix");
    ConstructNotNoMatch(rc.kind, kw, RuleCasts, lib);
    RuleCastTable();
    if Lookup(result, "fromprefix") == Some(Text("all")) {
      NetCasts("fromprefix", Text(rc.allprefix.value), lib);
    }
  }

  // -----------------------------------------------------------------------
  // add

  /**
   * The keyword arguments `add(fromprefix, **kwargs)` hands on: `from` is
   * the class's zero prefix when fromprefix is `any` (an AttributeError on
   * the plain Rule class) and the text of fromprefix otherwise.
   */
  function RuleAddKwargs(rc: RuleClass, fromprefix: Value, kwargs: Dict<Value>): Result<Dict<Value>, Error> {
    if fromprefix == Text("any") then
      if rc.allprefix.None? then Err(AttributeError("_allprefix"))
      else Ok(Put(kwargs, "from", Text(rc.allprefix.value)))
    else Ok(Put(kwargs, "from", Text(Render(fromprefix))))
  }

  /** `add`: the `add` command with the arguments above, and no positional ones. */
  function RuleAdd(rc: RuleClass, fromprefix: Value, kwargs: Dict<Value>): Result<Invocation, Error> {
    var kw :- RuleAddKwargs(rc, fromprefix, kwargs);
    Ok(Invocation(Command(["add"], RuleOrder), [], kw))
  }

  /**
   * `add` fails only for `any` on the plain class. Otherwise it calls
   * `add` in the rule order; `from` holds the zero prefix for `any` and
   * the text of the given prefix (a network's canonical text) otherwise;
   * every other keyword passes unchanged.
   */
  lemma RuleAddArgs(rc: RuleClass, fromprefix: Value, kwargs: Dict<Value>)
    ensures RuleAdd(rc, fromprefix, kwargs).Err? <==> fromprefix == Text("any") && rc.allprefix.None?
    ensures RuleAdd(rc, fromprefix, kwargs).Ok? ==>
      var inv := RuleAdd(rc, fromprefix, kwargs).value;
      && inv.command == Command(["add"], RuleOrder)
      && inv.positional == []
      && Lookup(inv.kwargs, "from") ==
           Some(Text(if fromprefix == Text("any") then rc.allprefix.value else Render(fromprefix)))
      && (fromprefix.Network? ==> Lookup(inv.kwargs, "from") == Some(Text(fromprefix.net)))
      && (forall k :: k != "from" ==> Lookup(inv.kwargs, k) == Lookup(kwargs, k))
      && (Distinct(kwargs) ==> Distinct(inv.kwargs))
  {
    if RuleAdd(rc, fromprefix, kwargs).Ok? && Distinct(kwargs) {
      var v := if fromprefix == Text("any") then rc.allprefix.value else Render(fromprefix);
      PutDistinct(kwargs, "from", Text(v));
    }
  }

  // -----------------------------------------------------------------------
  // delete

  /** The name `delete` gives attribute k: k with every "prefix" removed. */
  function ArgName(k: string): string {
    ReplaceAll(k, "prefix", "")
  }

  /**
   * The pairs of the list comprehension in `delete`: each attribute that
   * is not None, in attribute order, renamed, with its value as text.
   */
  function DeletePairs(fields: Dict<Value>): (ps: Dict<Value>)
    ensures |ps| <= |fields|
  {
    if fields == [] then []
    else if fields[0].1 == Null then DeletePairs(fields[1..])
    else [(ArgName(fields[0].0), Text(Render(fields[0].1)))] + DeletePairs(fields[1..])
  }

  /** `dict(pairs)` on top of acc: each pair in turn is stored, a later one overwriting an earlier one. */
  function DictOf(acc: Dict<Value>, ps: Dict<Value>): Dict<Value>
    decreases |ps|
  {
    if ps == [] then acc else DictOf(Put(acc, ps[0].0, ps[0].1), ps[1..])
  }

  /** The keyword arguments `delete` hands on. */
  function RuleDeleteKwargs(rec: Record): Dict<Value> {
    DictOf([], DeletePairs(rec.fields))
  }

  /** `delete`: the `del` command in the rule order, with the arguments above. */
  function RuleDelete(rec: Record): Invocation {
    Invocation(Command(["del"], RuleOrder), [], RuleDeleteKwargs(rec))
  }

  /** Attributes whose new names are pairwise different. */
  predicate RenamesDistinct(fields: Dict<Value>) {
    forall i, j :: 0 <= i < j < |fields| ==> ArgName(fields[i].0) != ArgName(fields[j].0)
  }

  /** Every pair comes from an attribute that is not None, renamed, its value rendered. */
  lemma {:induction false} DeletePairSource(fields: Dict<Value>, j: nat) returns (i: nat)
    requires j < |DeletePairs(fields)|
    ensures i < |fields| && fields[i].1 != Null
    ensures DeletePairs(fields)[j] == (ArgName(fields[i].0), Text(Render(fields[i].1)))
    decreases |fields|
  {
    var rest := fields[1..];
    if fields[0].1 != Null && j == 0 {
      i := 0;
    } else {
      var j' := if fields[0].1 == Null then j else j - 1;
      assert DeletePairs(fields)[j] == DeletePairs(rest)[j'];
      var i' := DeletePairSource(rest, j');
      assert rest[i'] == fields[i' + 1];
      i := i' + 1;
    }
  }

  /**
   * What `delete` passes for one attribute, when no two attributes are
   * renamed alike: the text of its value under its new name, or nothing
   * when it is None.
   */
  lemma {:induction false} DeletePairsLookup(fields: Dict<Value>, i: nat)
    requires RenamesDistinct(fields) && i < |fields|
    ensures Lookup(DeletePairs(fields), ArgName(fields[i].0)) ==
      (if fields[i].1 == Null then None else Some(Text(Render(fields[i].1))))
    decreases |fields|
  {
    var rest := fields[1..];
    var name := ArgName(fields[i].0);
    assert RenamesDistinct(rest) by {
      forall a, b | 0 <= a < b < |rest| ensures ArgName(rest[a].0) != ArgName(rest[b].0) {
        assert rest[a] == fields[a + 1] && rest[b] == fields[b + 1];
      }
    }
    if i == 0 {
      if fields[0].1 == Null {
        forall j | 0 <= j < |DeletePairs(rest)| ensures DeletePairs(rest)[j].0 != name {
          var i' := DeletePairSource(rest, j);
          assert rest[i'] == fields[i' + 1];
        }
      }
    } else {
      assert fields[i] == rest[i - 1];
      DeletePairsLookup(rest, i - 1);
      assert ArgName(fields[0].0) != name;
    }
  }

  /** Pairs with distinct names are all kept: `dict` then adds them in order. */
  lemma {:induction false} DictOfFresh(acc: Dict<Value>, ps: Dict<Value>)
    requires Distinct(acc + ps)
    ensures DictOf(acc, ps) == acc + ps
    decreases |ps|
  {
    if ps != [] {
      FreshStep(acc, ps);
      DictOfFresh(acc + [ps[0]], ps[1..]);
    }
  }

  /** Storing the first fresh pair appends it. */
  lemma FreshStep(acc: Dict<Value>, ps: Dict<Value>)
    requires Distinct(acc + ps) && ps != []
    ensures Put(acc, ps[0].0, ps[0].1) == acc + [ps[0]]
    ensures (acc + [ps[0]]) + ps[1..] == acc + ps
  {
    assert (acc + ps)[|acc|] == ps[0];
    forall i | 0 <= i < |acc| ensures acc[i].0 != ps[0].0 {
      assert (acc + ps)[i] == acc[i];
    }
    assert (acc + [ps[0]]) + ps[1..] == acc + ps;
  }

  /** When no two attributes are renamed alike, the pairs have distinct names. */
  lemma DeletePairsDistinct(fields: Dict<Value>)
    requires RenamesDistinct(fields)
    ensures Distinct(DeletePairs(fields))
  {
    var ps := DeletePairs(fields);
    forall a, b | 0 <= a < b < |ps| ensures ps[a].0 != ps[b].0 {
      DeletePairsOrder(fields, a, b);
    }
  }

  /** Two different pairs come from two different attributes. */
  lemma {:induction false} DeletePairsOrder(fields: Dict<Value>, a: nat, b: nat)
    requires RenamesDistinct(fields) && a < b < |DeletePairs(fields)|
    ensures DeletePairs(fields)[a].0 != DeletePairs(fields)[b].0
    decreases |fields|
  {
    var rest := fields[1..];
    assert RenamesDistinct(rest) by {
      forall x, y | 0 <= x < y < |rest| ensures ArgName(rest[x].0) != ArgName(rest[y].0) {
        assert rest[x] == fields[x + 1] && rest[y] == fields[y + 1];
      }
    }
    if fields[0].1 == Null {
      DeletePairsOrder(rest, a, b);
    } else if a == 0 {
      var i' := DeletePairSource(rest, b - 1);
      assert rest[i'] == fields[i' + 1];
    } else {
      DeletePairsOrder(rest, a - 1, b - 1);
    }
  }

  /** The new names of the rule groups. */
  lemma RuleArgNames()
    ensures ArgName("pref") == "pref"
    ensures ArgName("fromprefix") == "from"
    ensures ArgName("toprefix") == "to"
    ensures ArgName("fwmark") == "fwmark"
    ensures ArgName("lookup") == "lookup"
  {
    KeepsName("pref");
    KeepsName("fwmark");
    KeepsName("lookup");
    FromName();
    ToName();
  }

  lemma FromName()
    ensures ArgName("fromprefix") == "from"
  {
    var s := "fromprefix";
    assert s == "from" + "prefix";
    DropsSuffix("from");
  }

  lemma ToName()
    ensures ArgName("toprefix") == "to"
  {
    var s := "toprefix";
    assert s == "to" + "prefix";
    DropsSuffix("to");
  }

  /** A name with no 'p' where "prefix" could start is left alone. */
  lemma KeepsName(s: string)
    requires forall j :: 0 <= j && j + 6 <= |s| ==> s[j] != 'p'
    ensures ArgName(s) == s
  {
    forall j | 0 <= j ensures !OccursAt(s, "prefix", j) {
      if j + 6 <= |s| {
        assert s[j..j + 6][0] == s[j];
      }
    }
  }

  /** A head without a 'p', then "prefix": only the head is left. */
  lemma DropsSuffix(head: string)
    requires forall j :: 0 <= j < |head| ==> head[j] != 'p'
    ensures ArgName(head + "prefix") == head
  {
    var s := head + "prefix";
    var i := |head|;
    assert OccursAt(s, "prefix", i);
    forall j | 0 <= j < i ensures !OccursAt(s, "prefix", j) {
      if j + 6 <= |s| {
        assert s[j..j + 6][0] == s[j] == head[j];
      }
    }
    assert Find(s, "prefix") == Some(i);
    assert s[..i] == head && s[i + 6..] == [];
  }

  /**
   * What `delete` passes for a rule parsed from a line: the preference
   * under `pref`, the prefixes under `from` and `to`, fwmark and lookup
   * under their own names, each as text, and nothing for a group the line
   * left out; the arguments are exactly those pairs, in group order. This
   * holds for the prefixes as written and corrected alike.
   */
  lemma RuleDeleteParsed(rc: RuleClass, k: CharClass, line: string, lib: NetLib, i: nat)
    requires FromString(RuleSchemaOf(rc, k), line, lib).Ok? && i < |RuleGroups|
    ensures var rec := FromString(RuleSchemaOf(rc, k), line, lib).value;
      && RuleDelete(rec).command == Command(["del"], RuleOrder)
      && RuleDeleteKwargs(rec) == DeletePairs(rec.fields)
      && Lookup(rec.fields, RuleGroups[i]).Some?
      && var v := Lookup(rec.fields, RuleGroups[i]).value;
         Lookup(RuleDeleteKwargs(rec), ArgName(RuleGroups[i])) == (if v == Null then None else Some(Text(Render(v))))
  {
    var rec := FromString(RuleSchemaOf(rc, k), line, lib).value;
    ParsedRenames(rc, k, line, lib);
    DeletePairsDistinct(rec.fields);
    assert [] + DeletePairs(rec.fields) == DeletePairs(rec.fields);
    DictOfFresh([], DeletePairs(rec.fields));
    DeletePairsLookup(rec.fields, i);
    RuleGroupsUnique(rc, k);
    LookupAt(rec.fields, i);
  }

  /** A parsed rule's attributes are its groups, in order, renamed apart. */
  lemma ParsedRenames(rc: RuleClass, k: CharClass, line: string, lib: NetLib)
    requires FromString(RuleSchemaOf(rc, k), line, lib).Ok?
    ensures var rec := FromString(RuleSchemaOf(rc, k), line, lib).value;
      && Keys(rec.fields) == RuleGroups
      && Distinct(rec.fields)
      && RenamesDistinct(rec.fields)
  {
    var rec := FromString(RuleSchemaOf(rc, k), line, lib).value;
    RuleGroupsUnique(rc, k);
    RulePatternGroups(k);
    FromStringFields(RuleSchemaOf(rc, k), line, lib);
    MatchInBounds(RulePatternOf(k), line, 0, map[]);
    GroupRenamesDistinct(rec.fields);
  }

  /** Attributes named as the rule groups are renamed pairwise differently. */
  lemma GroupRenamesDistinct(fields: Dict<Value>)
    requires Keys(fields) == RuleGroups
    ensures RenamesDistinct(fields)
  {
    forall i, j | 0 <= i < j < |fields| ensures ArgName(fields[i].0) != ArgName(fields[j].0) {
      assert fields[i].0 == Keys(fields)[i] == RuleGroups[i];
      assert fields[j].0 == Keys(fields)[j] == RuleGroups[j];
      RenamedAt(i);
      RenamedAt(j);
      NewNamesApart(i, j);
    }
  }

  /** The rule groups' new names, in order. */
  const NewNames: seq<string> := ["pref", "from", "to", "fwmark", "lookup"]

  lemma NewNamesApart(i: nat, j: nat)
    requires i < j < |NewNames|
    ensures NewNames[i] != NewNames[j]
  {
    assert |NewNames[i]| != |NewNames[j]| || NewNames[i][0] != NewNames[j][0];
  }

  lemma RenamedAt(i: nat)
    requires i < |RuleGroups|
    ensures ArgName(RuleGroups[i]) == NewNames[i]
  {
    if i == 0 {
      KeepsName("pref");
    } else if i == 1 {
      FromName();
    } else if i == 2 {
      ToName();
    } else if i == 3 {
      KeepsName("fwmark");
    } else {
      KeepsName("lookup");
    }
  }
}
