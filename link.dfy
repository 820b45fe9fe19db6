/**
 * Network links, as `ip link show` prints them (ipyroute/link.py): the line
 * grammar, the cast tables of Link and of its EtherLink and GRELink
 * subtypes, the derived flag attributes and the subtype dispatch of
 * `construct`.
 */
module Link {
  import opened Common
  import opened Dicts
  import opened Regex
  import opened Values
  import opened Base

  // -----------------------------------------------------------------------
  // The line grammar, in three parts

  /** `num: name[@phy]: <flags> ` */
  const Header: Pat :=
    Cons(Rep(Digit, Plus, Some("num")), Cons(Lit(": "),
    Cons(Rep(NonSpace, LazyPlus, Some("name")),
    Cons(Opt(Cons(Lit("@"), Cons(Rep(NonSpace, Plus, Some("phy")), End))),
    Cons(Lit(": "), Cons(Lit("<"), Cons(Rep(NonSpace, Plus, Some("flags")), Cons(Lit("> "), End))))))))

  /** The optional `keyword value` groups, each followed by optional blanks. */
  const Options: Pat :=
    Cons(KeywordGroup("mtu", "mtu", Digit, Star),
    Cons(KeywordGroup("qdisc", "qdisc", NonSpace, Star),
    Cons(KeywordGroup("state", "state", NonSpace, Star),
    Cons(KeywordGroup("mode", "mode", NonSpace, Star),
    Cons(KeywordGroup("group", "group", NonSpace, Star),
    Cons(KeywordGroup("qlen", "qlen", NonSpace, Star), End))))))

  /** A backslash (the tool's line continuation), blanks, then `link/type addr brd brd`. */
  const LinkLayer: Pat :=
    Cons(Lit("\\"), Cons(Rep(Space, Plus, None), Cons(Lit("link/"),
    Cons(Rep(NonSpace, Plus, Some("type")), Cons(Lit(" "),
    Cons(Rep(AddrChar, Plus, Some("addr")), Cons(Lit(" "),
    Cons(Lit("brd "), Cons(Rep(AddrChar, Plus, Some("brd")), End)))))))))

  /** The whole line: the three parts one after the other. */
  const LinkPattern: Pat :=
    Cons(Rep(Digit, Plus, Some("num")), Cons(Lit(": "),
    Cons(Rep(NonSpace, LazyPlus, Some("name")),
    Cons(Opt(Cons(Lit("@"), Cons(Rep(NonSpace, Plus, Some("phy")), End))),
    Cons(Lit(": "), Cons(Lit("<"), Cons(Rep(NonSpace, Plus, Some("flags")), Cons(Lit("> "),
    Cons(KeywordGroup("mtu", "mtu", Digit, Star),
    Cons(KeywordGroup("qdisc", "qdisc", NonSpace, Star),
    Cons(KeywordGroup("state", "state", NonSpace, Star),
    Cons(KeywordGroup("mode", "mode", NonSpace, Star),
    Cons(KeywordGroup("group", "group", NonSpace, Star),
    Cons(KeywordGroup("qlen", "qlen", NonSpace, Star),
    Cons(Lit("\\"), Cons(Rep(Space, Plus, None), Cons(Lit("link/"),
    Cons(Rep(NonSpace, Plus, Some("type")), Cons(Lit(" "),
    Cons(Rep(AddrChar, Plus, Some("addr")), Cons(Lit(" "),
    Cons(Lit("brd "), Cons(Rep(AddrChar, Plus, Some("brd")), End)))))))))))))))))))))))

  lemma LinkPatternParts()
    ensures LinkPattern == Append(Header, Append(Options, LinkLayer))
  {
  }

  // -----------------------------------------------------------------------
  // Where each part of the header ends

  /** The link layer after the backslash: `\s+link/type addr brd brd`. */
  const LayerRest: Pat :=
    Cons(Rep(Space, Plus, None), Cons(Lit("link/"),
    Cons(Rep(NonSpace, Plus, Some("type")), Cons(Lit(" "),
    Cons(Rep(AddrChar, Plus, Some("addr")), Cons(Lit(" "),
    Cons(Lit("brd "), Cons(Rep(AddrChar, Plus, Some("brd")), End))))))))

  /**
   * `num: ` then rest: a line that matches goes on after `num: ` with num
   * captured, and num is the whole run of leading digits, since a shorter
   * one is followed by a digit rather than by the colon.
   */
  lemma NumThen(line: string, rest: Pat)
    ensures var n := Run(line, 0, Digit, Plus);
      Match(Cons(Rep(Digit, Plus, Some("num")), Cons(Lit(": "), rest)), line, 0, map[]).Some? ==>
        && n + 2 <= |line|
        && Match(Cons(Rep(Digit, Plus, Some("num")), Cons(Lit(": "), rest)), line, 0, map[]) ==
           Match(rest, line, n + 2, map["num" := (0, n)])
  {
    var p := Cons(Rep(Digit, Plus, Some("num")), Cons(Lit(": "), rest));
    var j := RepStep(Digit, Plus, Some("num"), Cons(Lit(": "), rest), line, 0, map[]);
    if Match(p, line, 0, map[]).Some? {
      var env := map["num" := (0, j)];
      assert Match(p, line, 0, map[]) == Match(Cons(Lit(": "), rest), line, j, env);
      NumIsRun(line, j, rest, env);
    }
  }

  /** `: ` can only follow the whole run of leading digits: a shorter one is followed by a digit. */
  lemma NumIsRun(line: string, j: nat, rest: Pat, env: Env)
    requires j <= Run(line, 0, Digit, Plus) && SpansIn(env, |line|)
    requires Match(Cons(Lit(": "), rest), line, j, env).Some?
    ensures j == Run(line, 0, Digit, Plus)
  {
    if j < Run(line, 0, Digit, Plus) {
      DigitIsNoColon(line, j, rest, env);
    }
  }

  /** A digit where the colon should be makes `: ` fail. */
  lemma DigitIsNoColon(line: string, j: nat, rest: Pat, env: Env)
    requires j < |line| && IsDigit(line[j]) && SpansIn(env, |line|)
    ensures Match(Cons(Lit(": "), rest), line, j, env).None?
  {
    LitAtDiffers(line, j, ": ", 0);
  }

  /** `(@(?P<phy>\S+))?: ` then rest. */
  function PhyThen(rest: Pat): Pat {
    Cons(Opt(Cons(Lit("@"), Cons(Rep(NonSpace, Plus, Some("phy")), End))), Cons(Lit(": "), rest))
  }

  lemma PhyAppend(colon: Pat)
    ensures Append(Cons(Lit("@"), Cons(Rep(NonSpace, Plus, Some("phy")), End)), colon) ==
      Cons(Lit("@"), Cons(Rep(NonSpace, Plus, Some("phy")), colon))
  {
    assert Append(Cons(Rep(NonSpace, Plus, Some("phy")), End), colon) == Cons(Rep(NonSpace, Plus, Some("phy")), colon);
  }

  /**
   * After a name ending at p, before the first blank q: with `@` at p the
   * phy group takes the rest of the token up to the colon, and otherwise
   * the colon must sit at p; either way the match goes on after q.
   */
  lemma NameThen(line: string, a: nat, p: nat, q: nat, env: Env, rest: Pat)
    requires FirstBlank(line, a, q) && a <= p <= q && SpansIn(env, |line|)
    ensures Match(PhyThen(rest), line, p, env).Some? && line[p] != '@' ==>
      p + 1 == q && Match(PhyThen(rest), line, p, env) == Match(rest, line, q + 1, env)
    ensures Match(PhyThen(rest), line, p, env).Some? && line[p] == '@' ==>
      && p + 3 <= q
      && Match(PhyThen(rest), line, p, env) == Match(rest, line, q + 1, Bind(env, Some("phy"), p + 1, q - 1))
  {
    var colon := Cons(Lit(": "), rest);
    var phy := Cons(Rep(NonSpace, Plus, Some("phy")), colon);
    PhyAppend(colon);
    assert Append(End, colon) == colon;
    PairThen(':', rest, line, a, p, q, env);
    if line[p] == '@' {
      assert line[p..p + 1] == "@";
      LitStep("@", phy, line, p, env);
      TokenPairThen(':', Some("phy"), rest, line, p + 1, q, env);
      assert Match(colon, line, p, env).None?;
      assert Match(PhyThen(rest), line, p, env) == Match(phy, line, p + 1, env);
    } else {
      assert !LitAt(line, p, "@");
      assert Match(PhyThen(rest), line, p, env) == Match(colon, line, p, env);
    }
  }

  /** With `@` at p and the colon before the blank q, a phy path that goes on after q is taken. */
  lemma PhyFinds(line: string, p: nat, q: nat, env: Env, rest: Pat)
    requires p + 3 <= q && FirstBlank(line, p + 1, q) && line[p] == '@' && line[q - 1] == ':' && line[q] == ' '
    requires SpansIn(env, |line|)
    requires Match(rest, line, q + 1, Bind(env, Some("phy"), p + 1, q - 1)).Some?
    ensures Match(PhyThen(rest), line, p, env).Some?
  {
    var colon := Cons(Lit(": "), rest);
    var phy := Cons(Rep(NonSpace, Plus, Some("phy")), colon);
    PhyAppend(colon);
    TokenPairFinds(':', Some("phy"), rest, line, p + 1, q, env);
    assert line[p..p + 1] == "@";
    LitStep("@", phy, line, p, env);
  }

  /** `<(?P<flags>\S+)> ` then rest. */
  function FlagsThen(rest: Pat): Pat {
    Cons(Lit("<"), Cons(Rep(NonSpace, Plus, Some("flags")), Cons(Lit("> "), rest)))
  }

  /** `<flags> ` read at a, before the first blank r after it: the match goes on after r. */
  lemma FlagsEnd(line: string, a: nat, r: nat, env: Env, rest: Pat)
    requires FirstBlank(line, a + 1, r) && SpansIn(env, |line|)
    ensures Match(FlagsThen(rest), line, a, env).Some? ==>
      && a + 3 <= r
      && Match(FlagsThen(rest), line, a, env) == Match(rest, line, r + 1, Bind(env, Some("flags"), a + 1, r - 1))
  {
    TokenPairThen('>', Some("flags"), rest, line, a + 1, r, env);
  }

  /** `(mtu (?P<mtu>\d+)\s*)?` then rest. */
  function MtuThen(rest: Pat): Pat {
    Cons(KeywordGroup("mtu", "mtu", Digit, Star), rest)
  }

  /**
   * Where the line says `mtu ` and then a non-digit, the mtu group is
   * skipped and the match goes on from the same place.
   */
  lemma MtuNotNumber(line: string, p: nat, env: Env, rest: Pat)
    requires p + 4 < |line| && line[p..p + 4] == "mtu " && !IsDigit(line[p + 4]) && SpansIn(env, |line|)
    ensures Match(MtuThen(rest), line, p, env) == Match(rest, line, p, env)
  {
    var value := Cons(Rep(Digit, Plus, Some("mtu")), Cons(Rep(Space, Star, None), rest));
    var body := Cons(Lit("mtu "), Cons(Rep(Digit, Plus, Some("mtu")), Cons(Rep(Space, Star, None), End)));
    BodyAppend("mtu", "mtu", Digit, Star, rest);
    assert Match(value, line, p + 4, env).None? by {
      var j := RepStep(Digit, Plus, Some("mtu"), Cons(Rep(Space, Star, None), rest), line, p + 4, env);
    }
    LitStep("mtu ", value, line, p, env);
    OptSkipped(body, rest, line, p, env);
  }

  /** An optional `keyword value` group whose keyword is not at p is skipped. */
  lemma OptionAbsent(keyword: string, rest: Pat, line: string, p: nat, env: Env)
    requires p <= |line| && SpansIn(env, |line|) && !LitAt(line, p, keyword + " ")
    ensures Match(Cons(KeywordGroup(keyword, keyword, NonSpace, Star), rest), line, p, env) == Match(rest, line, p, env)
  {
    OptLitAbsent(keyword + " ", Cons(Rep(NonSpace, Plus, Some(keyword)), Cons(Rep(Space, Star, None), End)), rest, line, p, env);
  }

  /** The options after mtu, then the backslash: none of them can start with `mt`. */
  function OptionsThen(layer: Pat): Pat {
    Cons(KeywordGroup("qdisc", "qdisc", NonSpace, Star),
    Cons(KeywordGroup("state", "state", NonSpace, Star),
    Cons(KeywordGroup("mode", "mode", NonSpace, Star),
    Cons(KeywordGroup("group", "group", NonSpace, Star),
    Cons(KeywordGroup("qlen", "qlen", NonSpace, Star), Cons(Lit("\\"), layer))))))
  }

  /** Where the line says `mt`, every later option is skipped and the backslash is missing. */
  lemma OptionsFail(line: string, p: nat, env: Env, layer: Pat)
    requires p + 2 <= |line| && line[p] == 'm' && line[p + 1] == 't' && SpansIn(env, |line|)
    ensures Match(OptionsThen(layer), line, p, env).None?
  {
    var l2 := Cons(KeywordGroup("group", "group", NonSpace, Star),
      Cons(KeywordGroup("qlen", "qlen", NonSpace, Star), Cons(Lit("\\"), layer)));
    var l3 := Cons(KeywordGroup("mode", "mode", NonSpace, Star), l2);
    var l4 := Cons(KeywordGroup("state", "state", NonSpace, Star), l3);
    assert OptionsThen(layer) == Cons(KeywordGroup("qdisc", "qdisc", NonSpace, Star), l4);
    LitAtDiffers(line, p, "qdisc" + " ", 0);
    OptionAbsent("qdisc", l4, line, p, env);
    LitAtDiffers(line, p, "state" + " ", 0);
    OptionAbsent("state", l3, line, p, env);
    LitAtDiffers(line, p, "mode" + " ", 1);
    OptionAbsent("mode", l2, line, p, env);
    LastOptionsFail(line, p, env, layer);
  }

  lemma LastOptionsFail(line: string, p: nat, env: Env, layer: Pat)
    requires p + 2 <= |line| && line[p] == 'm' && SpansIn(env, |line|)
    ensures Match(Cons(KeywordGroup("group", "group", NonSpace, Star),
      Cons(KeywordGroup("qlen", "qlen", NonSpace, Star), Cons(Lit("\\"), layer))), line, p, env).None?
  {
    var l0 := Cons(Lit("\\"), layer);
    var l1 := Cons(KeywordGroup("qlen", "qlen", NonSpace, Star), l0);
    assert Match(l0, line, p, env).None? by {
      assert !LitAt(line, p, "\\");
    }
    LitAtDiffers(line, p, "group" + " ", 0);
    OptionAbsent("group", l1, line, p, env);
    LitAtDiffers(line, p, "qlen" + " ", 0);
    OptionAbsent("qlen", l0, line, p, env);
  }


  /** The whole pattern, with the parts above and any link layer. */
  function LinkPatternWith(layer: Pat): Pat {
    Cons(Rep(Digit, Plus, Some("num")), Cons(Lit(": "),
    Cons(Rep(NonSpace, LazyPlus, Some("name")), PhyThen(FlagsThen(MtuThen(OptionsThen(layer)))))))
  }

  lemma LinkPatternShape()
    ensures LinkPattern == LinkPatternWith(LayerRest)
    ensures LinkPattern == HeaderThen(FlagsThen(MtuThen(OptionsThen(LayerRest))))
  {
  }

  /**
   * A line whose flags are followed by `mtu ` and then a non-digit does
   * not match: the mtu group cannot take a digit, no other option starts
   * with `mt`, and the backslash is not there. q is the first blank after
   * `num: `, and r the first blank after the `<` that follows it.
   */
  lemma MtuNotNumberNoMatch(line: string, q: nat, r: nat, layer: Pat)
    requires var n := Run(line, 0, Digit, Plus); n + 2 < q && FirstBlank(line, n + 2, q)
    requires FirstBlank(line, q + 2, r)
    requires r + 5 < |line| && line[r + 1..r + 5] == "mtu " && !IsDigit(line[r + 5])
    ensures Match(LinkPatternWith(layer), line, 0, map[]).None?
  {
    var tail := MtuThen(OptionsThen(layer));
    TailFails(line, r, layer);
    FlagsFail(line, q, r, tail);
    HeaderFails(line, q, FlagsThen(tail));
  }

  /**
   * `Link.from_string` on such a line raises the no-match error rather
   * than reaching the int cast of mtu.
   */
  lemma LinkMtuNotNumber(line: string, q: nat, r: nat, lib: NetLib)
    requires var n := Run(line, 0, Digit, Plus); n + 2 < q && FirstBlank(line, n + 2, q)
    requires FirstBlank(line, q + 2, r)
    requires r + 5 < |line| && line[r + 1..r + 5] == "mtu " && !IsDigit(line[r + 5])
    ensures FromString(LinkSchema, line, lib) == Err(NoMatch("Link", line))
  {
    LinkPatternShape();
    MtuNotNumberNoMatch(line, q, r, LayerRest);
  }

  /** The gre line with `mtu bogus`: no match, so the query raises. */
  const BogusMtuLine: string :=
    "5: " + "gre0@NONE:" + " <NOARP>" + " mtu " + "bogus" + " qdisc noop state DOWN \\    link/gre 0.0.0.0 brd 0.0.0.0"

  lemma BogusMtuFails(lib: NetLib)
    ensures FromString(LinkSchema, BogusMtuLine, lib) == Err(NoMatch("Link", BogusMtuLine))
  {
    BogusMtuShape();
    LinkMtuNotNumber(BogusMtuLine, 13, 21, lib);
  }

  lemma BogusMtuShape()
    ensures Run(BogusMtuLine, 0, Digit, Plus) == 1
    ensures FirstBlank(BogusMtuLine, 3, 13) && FirstBlank(BogusMtuLine, 15, 21)
    ensures BogusMtuLine[22..26] == "mtu " && !IsDigit(BogusMtuLine[26])
  {
    BogusMtuHead();
    BogusMtuFlags();
    BogusMtuWord();
  }

  lemma BogusMtuHead()
    ensures Run(BogusMtuLine, 0, Digit, Plus) == 1 && FirstBlank(BogusMtuLine, 3, 13)
  {
    var line := BogusMtuLine;
    assert IsDigit(line[0]) && !IsDigit(line[1]);
    assert forall i :: 3 <= i < 13 ==> line[i] == "gre0@NONE:"[i - 3];
    assert line[13] == ' ';
  }

  lemma BogusMtuFlags()
    ensures FirstBlank(BogusMtuLine, 15, 21)
  {
    var line := BogusMtuLine;
    assert forall i :: 13 <= i < 21 ==> line[i] == " <NOARP>"[i - 13];
    assert line[21] == ' ';
  }

  lemma BogusMtuWord()
    ensures BogusMtuLine[22..26] == "mtu " && !IsDigit(BogusMtuLine[26])
  {
    var line := BogusMtuLine;
    assert forall i :: 21 <= i < 26 ==> line[i] == " mtu "[i - 21];
    assert line[22..26] == " mtu "[1..5];
    assert line[26] == "bogus"[0];
  }

  lemma TailFails(line: string, r: nat, layer: Pat)
    requires r + 5 < |line| && line[r + 1..r + 5] == "mtu " && !IsDigit(line[r + 5])
    ensures forall env: Env {:trigger Match(MtuThen(OptionsThen(layer)), line, r + 1, env)} ::
      SpansIn(env, |line|) ==> Match(MtuThen(OptionsThen(layer)), line, r + 1, env).None?
  {
    assert line[r + 1] == line[r + 1..r + 5][0] == 'm';
    assert line[r + 2] == line[r + 1..r + 5][1] == 't';
    forall env: Env {:trigger Match(MtuThen(OptionsThen(layer)), line, r + 1, env)} | SpansIn(env, |line|)
      ensures Match(MtuThen(OptionsThen(layer)), line, r + 1, env).None?
    {
      MtuNotNumber(line, r + 1, env, OptionsThen(layer));
      OptionsFail(line, r + 1, env, layer);
    }
  }

  /** `<flags> ` at q + 1 fails for every capture set when what follows the blank r fails. */
  lemma FlagsFail(line: string, q: nat, r: nat, tail: Pat)
    requires FirstBlank(line, q + 2, r)
    requires forall env: Env {:trigger Match(tail, line, r + 1, env)} :: SpansIn(env, |line|) ==> Match(tail, line, r + 1, env).None?
    ensures forall env: Env {:trigger Match(FlagsThen(tail), line, q + 1, env)} :: SpansIn(env, |line|) ==> Match(FlagsThen(tail), line, q + 1, env).None?
  {
    forall env: Env {:trigger Match(FlagsThen(tail), line, q + 1, env)} | SpansIn(env, |line|)
      ensures Match(FlagsThen(tail), line, q + 1, env).None?
    {
      FlagsEnd(line, q + 1, r, env, tail);
    }
  }

  /**
   * `num: name(@phy)?: ` then rest fails when rest fails after the first
   * blank q past `num: `, for every capture set.
   */
  lemma HeaderFails(line: string, q: nat, rest: Pat)
    requires var n := Run(line, 0, Digit, Plus); n + 2 < q && FirstBlank(line, n + 2, q)
    requires forall env: Env {:trigger Match(rest, line, q + 1, env)} :: SpansIn(env, |line|) ==> Match(rest, line, q + 1, env).None?
    ensures Match(Cons(Rep(Digit, Plus, Some("num")), Cons(Lit(": "),
      Cons(Rep(NonSpace, LazyPlus, Some("name")), PhyThen(rest)))), line, 0, map[]).None?
  {
    var names := Cons(Rep(NonSpace, LazyPlus, Some("name")), PhyThen(rest));
    NumThen(line, names);
    var n := Run(line, 0, Digit, Plus);
    NameFails(line, n + 2, q, map["num" := (0, n)], rest);
  }

  /** Wherever the name ends, before the first blank q, the rest fails after q. */
  lemma NameEndFails(line: string, a: nat, p: nat, q: nat, env: Env, rest: Pat)
    requires FirstBlank(line, a, q) && a <= p <= q && SpansIn(env, |line|)
    requires forall env: Env {:trigger Match(rest, line, q + 1, env)} :: SpansIn(env, |line|) ==> Match(rest, line, q + 1, env).None?
    ensures Match(PhyThen(rest), line, p, env).None?
  {
    NameThen(line, a, p, q, env, rest);
    assert Match(rest, line, q + 1, env).None?;
    if line[p] == '@' && p + 3 <= q {
      assert Match(rest, line, q + 1, Bind(env, Some("phy"), p + 1, q - 1)).None?;
    }
  }

  /** The lazy name from a, before the first blank q: whatever it takes, the rest fails. */
  lemma NameFails(line: string, a: nat, q: nat, env: Env, rest: Pat)
    requires a < q && FirstBlank(line, a, q) && SpansIn(env, |line|)
    requires forall env: Env {:trigger Match(rest, line, q + 1, env)} :: SpansIn(env, |line|) ==> Match(rest, line, q + 1, env).None?
    ensures Match(Cons(Rep(NonSpace, LazyPlus, Some("name")), PhyThen(rest)), line, a, env).None?
  {
    var j := NameStep(line, a, q, env, rest);
    NameEndFails(line, a, a + j, q, Bind(env, Some("name"), a, a + j), rest);
  }

  /**
   * The lazy name before a token `name@phy:` stops at the first `@`: a
   * shorter name is followed by neither `@` nor the colon, and a longer
   * one is never tried, since stopping at the `@` already matches.
   */
  lemma NameStopsAtAt(line: string, a: nat, at: nat, q: nat, env: Env, rest: Pat)
    requires FirstBlank(line, a, q) && a < at && at + 3 <= q
    requires line[at] == '@' && line[q - 1] == ':' && line[q] == ' '
    requires forall i :: a <= i < at ==> line[i] != '@'
    requires SpansIn(env, |line|) && NoRef(rest)
    ensures Match(Cons(Rep(NonSpace, LazyPlus, Some("name")), PhyThen(rest)), line, a, env).Some? ==>
      Match(Cons(Rep(NonSpace, LazyPlus, Some("name")), PhyThen(rest)), line, a, env) ==
      Match(rest, line, q + 1, Bind(Bind(env, Some("name"), a, at), Some("phy"), at + 1, q - 1))
  {
    var e := NameRest(line, a, q, env, rest);
    if Match(rest, line, q + 1, e).Some? {
      StopAtAt(line, a, at, q, env, rest, e);
    }
  }

  /** The lazy name from a stops somewhere before the first blank q. */
  lemma NameStep(line: string, a: nat, q: nat, env: Env, rest: Pat) returns (j: nat)
    requires FirstBlank(line, a, q) && a < q && SpansIn(env, |line|)
    ensures 1 <= j <= q - a && SpansIn(Bind(env, Some("name"), a, a + j), |line|)
    ensures Match(Cons(Rep(NonSpace, LazyPlus, Some("name")), PhyThen(rest)), line, a, env) ==
      Match(PhyThen(rest), line, a + j, Bind(env, Some("name"), a, a + j))
  {
    RunToBlank(line, a, q);
    j := RepStep(NonSpace, LazyPlus, Some("name"), PhyThen(rest), line, a, env);
    BindSpans(env, Some("name"), a, a + j, |line|);
  }

  /** Wherever the lazy name stops, a match goes on after the blank q, with some captures e. */
  lemma NameRest(line: string, a: nat, q: nat, env: Env, rest: Pat) returns (e: Env)
    requires FirstBlank(line, a, q) && a < q && SpansIn(env, |line|)
    ensures SpansIn(e, |line|)
    ensures Match(Cons(Rep(NonSpace, LazyPlus, Some("name")), PhyThen(rest)), line, a, env).Some? ==>
      Match(rest, line, q + 1, e).Some?
  {
    var j := NameStep(line, a, q, env, rest);
    e := PhyRestSome(line, a, a + j, q, Bind(env, Some("name"), a, a + j), rest);
  }

  /** When rest matches after the blank q at all, the name stops at the `@`. */
  lemma StopAtAt(line: string, a: nat, at: nat, q: nat, env: Env, rest: Pat, e: Env)
    requires FirstBlank(line, a, q) && a < at && at + 3 <= q
    requires line[at] == '@' && line[q - 1] == ':' && line[q] == ' '
    requires forall i :: a <= i < at ==> line[i] != '@'
    requires SpansIn(env, |line|) && NoRef(rest)
    requires SpansIn(e, |line|) && Match(rest, line, q + 1, e).Some?
    ensures Match(Cons(Rep(NonSpace, LazyPlus, Some("name")), PhyThen(rest)), line, a, env) ==
      Match(rest, line, q + 1, Bind(Bind(env, Some("name"), a, at), Some("phy"), at + 1, q - 1))
  {
    var envAt := Bind(env, Some("name"), a, at);
    BindSpans(env, Some("name"), a, at, |line|);
    PhyAt(line, a, at, q, envAt, rest, e);
    EarlierStopsFail(line, a, at, q, env, rest);
    RunToBlank(line, a, q);
    LazyStops(NonSpace, Some("name"), PhyThen(rest), line, a, env, at);
  }

  /** At the `@`, the phy path is taken and goes on after the blank q. */
  lemma PhyAt(line: string, a: nat, at: nat, q: nat, envAt: Env, rest: Pat, e: Env)
    requires FirstBlank(line, a, q) && a < at && at + 3 <= q
    requires line[at] == '@' && line[q - 1] == ':' && line[q] == ' '
    requires SpansIn(envAt, |line|) && NoRef(rest)
    requires SpansIn(e, |line|) && Match(rest, line, q + 1, e).Some?
    ensures Match(PhyThen(rest), line, at, envAt).Some?
    ensures Match(PhyThen(rest), line, at, envAt) == Match(rest, line, q + 1, Bind(envAt, Some("phy"), at + 1, q - 1))
  {
    BindSpans(envAt, Some("phy"), at + 1, q - 1, |line|);
    MatchEnvFree(rest, line, q + 1, e, Bind(envAt, Some("phy"), at + 1, q - 1));
    assert FirstBlank(line, at + 1, q);
    PhyFinds(line, at, q, envAt, rest);
    NameThen(line, a, at, q, envAt, rest);
  }

  /** A name that stops before the first `@` is followed by neither `@` nor the colon. */
  lemma EarlierStopsFail(line: string, a: nat, at: nat, q: nat, env: Env, rest: Pat)
    requires FirstBlank(line, a, q) && a < at && at + 3 <= q
    requires forall i :: a <= i < at ==> line[i] != '@'
    requires SpansIn(env, |line|)
    ensures forall m {:trigger Match(PhyThen(rest), line, m, Bind(env, Some("name"), a, m))} ::
      a + 1 <= m < at ==> Match(PhyThen(rest), line, m, Bind(env, Some("name"), a, m)).None?
  {
    forall m | a + 1 <= m < at
      ensures Match(PhyThen(rest), line, m, Bind(env, Some("name"), a, m)).None?
    {
      BindSpans(env, Some("name"), a, m, |line|);
      NameThen(line, a, m, q, Bind(env, Some("name"), a, m), rest);
    }
  }

  /**
   * Where `(@phy)?: ` then rest matches at p, rest matches after the
   * blank q with the captures e.
   */
  lemma PhyRestSome(line: string, a: nat, p: nat, q: nat, env: Env, rest: Pat) returns (e: Env)
    requires FirstBlank(line, a, q) && a <= p <= q && SpansIn(env, |line|)
    ensures SpansIn(e, |line|)
    ensures Match(PhyThen(rest), line, p, env).Some? ==> Match(rest, line, q + 1, e).Some?
  {
    NameThen(line, a, p, q, env, rest);
    if line[p] == '@' && p + 1 <= q - 1 {
      e := Bind(env, Some("phy"), p + 1, q - 1);
      BindSpans(env, Some("phy"), p + 1, q - 1, |line|);
    } else {
      e := env;
    }
  }

  /**
   * `num: name@phy: ` then rest: in a match, name is the text before the
   * first `@` and phy the text after it, up to the colon.
   */
  lemma HeaderNamePhy(line: string, at: nat, q: nat, rest: Pat)
    requires var n := Run(line, 0, Digit, Plus); n + 2 < at && FirstBlank(line, n + 2, q) && at + 3 <= q
    requires line[at] == '@' && line[q - 1] == ':' && line[q] == ' '
    requires forall i :: Run(line, 0, Digit, Plus) + 2 <= i < at ==> line[i] != '@'
    requires NoRef(rest) && "name" !in Names(rest) && "phy" !in Names(rest)
    ensures Match(HeaderThen(rest), line, 0, map[]).Some? ==>
      Captures(Match(HeaderThen(rest), line, 0, map[]).value.0, Run(line, 0, Digit, Plus) + 2, at, at + 1, q - 1)
  {
    HeaderStops(line, Run(line, 0, Digit, Plus), at, q, rest);
    var env := HeaderEnv(Run(line, 0, Digit, Plus), at, q);
    KeepsNamePhy(line, q + 1, env, rest);
  }

  /** The captures after the header: num, then name up to the `@`, then phy up to the colon. */
  function HeaderEnv(n: nat, at: nat, q: nat): Env
    requires q >= 1
  {
    map["num" := (0, n), "name" := (n + 2, at), "phy" := (at + 1, q - 1)]
  }

  /** The header of such a line can only be matched one way: it ends after the blank q. */
  lemma HeaderStops(line: string, n: nat, at: nat, q: nat, rest: Pat)
    requires n == Run(line, 0, Digit, Plus) && n + 2 < at && FirstBlank(line, n + 2, q) && at + 3 <= q
    requires line[at] == '@' && line[q - 1] == ':' && line[q] == ' '
    requires forall i :: n + 2 <= i < at ==> line[i] != '@'
    requires NoRef(rest)
    ensures SpansIn(HeaderEnv(n, at, q), |line|)
    ensures Match(HeaderThen(rest), line, 0, map[]).Some? ==>
      Match(HeaderThen(rest), line, 0, map[]) == Match(rest, line, q + 1, HeaderEnv(n, at, q))
  {
    var e1: Env := map["num" := (0, n)];
    HeaderEnvBinds(n, at, q, |line|);
    HeaderAfterNum(line, rest);
    NameStopsAtAt(line, n + 2, at, q, e1, rest);
  }

  /** A header match goes on after `num: ` with num captured as the whole run of digits. */
  lemma HeaderAfterNum(line: string, rest: Pat)
    ensures var n := Run(line, 0, Digit, Plus);
      Match(HeaderThen(rest), line, 0, map[]).Some? ==>
        && n + 2 <= |line|
        && Match(HeaderThen(rest), line, 0, map[]) ==
           Match(Cons(Rep(NonSpace, LazyPlus, Some("name")), PhyThen(rest)), line, n + 2, map["num" := (0, n)])
  {
    NumThen(line, Cons(Rep(NonSpace, LazyPlus, Some("name")), PhyThen(rest)));
  }

  /** The captures of the header are those of num, then name, then phy, bound in turn. */
  lemma HeaderEnvBinds(n: nat, at: nat, q: nat, len: nat)
    requires n + 2 <= at && at + 1 <= q - 1 && q <= len
    ensures SpansIn(map["num" := (0, n)], len)
    ensures Bind(Bind(map["num" := (0, n)], Some("name"), n + 2, at), Some("phy"), at + 1, q - 1) == HeaderEnv(n, at, q)
    ensures SpansIn(HeaderEnv(n, at, q), len)
  {
  }

  /** A part of the pattern without name and phy groups leaves their captures as they were. */
  lemma KeepsNamePhy(line: string, pos: nat, env: Env, rest: Pat)
    requires pos <= |line| && SpansIn(env, |line|) && "name" in env && "phy" in env
    requires "name" !in Names(rest) && "phy" !in Names(rest)
    ensures Match(rest, line, pos, env).Some? ==>
      && "name" in Match(rest, line, pos, env).value.0 && "phy" in Match(rest, line, pos, env).value.0
      && Match(rest, line, pos, env).value.0["name"] == env["name"]
      && Match(rest, line, pos, env).value.0["phy"] == env["phy"]
  {
    MatchShape(rest, line, pos, env);
  }

  /** `num: name(@phy)?: ` then rest. */
  function HeaderThen(rest: Pat): Pat {
    Cons(Rep(Digit, Plus, Some("num")), Cons(Lit(": "), Cons(Rep(NonSpace, LazyPlus, Some("name")), PhyThen(rest))))
  }

  lemma HeaderNames(rest: Pat)
    ensures "name" in Names(HeaderThen(rest)) && "phy" in Names(HeaderThen(rest))
  {
    var colon := Cons(Lit(": "), rest);
    var at := Cons(Lit("@"), Cons(Rep(NonSpace, Plus, Some("phy")), End));
    assert Names(colon) == Names(rest);
    assert Names(at) == ["phy"];
    assert Names(PhyThen(rest)) == Names(at) + Names(End) + Names(colon);
    assert Names(PhyThen(rest)) == ["phy"] + Names(rest);
    var name := Cons(Rep(NonSpace, LazyPlus, Some("name")), PhyThen(rest));
    assert Names(name) == ["name"] + Names(PhyThen(rest));
    assert Names(HeaderThen(rest)) == ["num"] + Names(Cons(Lit(": "), name));
  }

  /** name captured [a, b) and phy captured [c, d). */
  predicate Captures(env: Env, a: nat, b: nat, c: nat, d: nat) {
    && "name" in env && env["name"].0 == a && env["name"].1 == b
    && "phy" in env && env["phy"].0 == c && env["phy"].1 == d
  }

  /** Each group name occurs once in the link pattern. */
  lemma LinkPatternOnce()
    ensures NoDuplicates(Names(LinkPattern))
  {
    LinkPatternGroups();
  }

  /**
   * Pattern p names each group once, has a name and a phy group, and a
   * match of it on line captures name at [a, b) and phy at [c, d).
   */
  predicate NamePhyCaptured(p: Pat, line: string, a: nat, b: nat, c: nat, d: nat) {
    && NoDuplicates(Names(p)) && "name" in Names(p) && "phy" in Names(p)
    && (Match(p, line, 0, map[]).Some? ==> Captures(Match(p, line, 0, map[]).value.0, a, b, c, d))
  }

  /**
   * `Link.regex` on a line whose first token is `name@phy:` (after the
   * number and its `: `): name is lazy, so it stops at the first `@`, and
   * phy is the rest of the token without its colon. The pattern names
   * each group once, so a record parsed with it holds these texts (see
   * CapturedName and CapturedPhy).
   */
  lemma LinkHeaderCaptures(line: string, at: nat, q: nat)
    requires var n := Run(line, 0, Digit, Plus); n + 2 < at && FirstBlank(line, n + 2, q) && at + 3 <= q
    requires line[at] == '@' && line[q - 1] == ':' && line[q] == ' '
    requires forall i :: Run(line, 0, Digit, Plus) + 2 <= i < at ==> line[i] != '@'
    ensures NamePhyCaptured(LinkPattern, line, Run(line, 0, Digit, Plus) + 2, at, at + 1, q - 1)
  {
    var tail := FlagsThen(MtuThen(OptionsThen(LayerRest)));
    LinkPatternShape();
    LinkPatternOnce();
    TailPlain();
    HeaderNamePhy(line, at, q, tail);
    HeaderNames(tail);
  }

  /**
   * `Link.from_string`, and the subtypes' which share its pattern and
   * leave name and phy uncast, on such a line: the record's name is the
   * text before the first `@` and its phy the rest of the token.
   */
  lemma LinkNamePhy(line: string, a: nat, at: nat, c: nat, d: nat, lib: NetLib)
    requires a == Run(line, 0, Digit, Plus) + 2 && c == at + 1
    requires a < at && c + 1 < d && FirstBlank(line, a, d + 1)
    requires line[at] == '@' && line[d] == ':' && line[d + 1] == ' '
    requires forall i :: a <= i < at ==> line[i] != '@'
    requires FromString(LinkSchema, line, lib).Ok?
    ensures Lookup(FromString(LinkSchema, line, lib).value.fields, "name") == Some(Text(line[a..at]))
    ensures Lookup(FromString(LinkSchema, line, lib).value.fields, "phy") == Some(Text(line[c..d]))
  {
    HeaderAt(line, a, at, c, d);
    assert LinkSchema.pattern == LinkPattern;
    CapturedName(LinkSchema, line, a, at, c, d, lib);
    CapturedPhy(LinkSchema, line, a, at, c, d, lib);
  }

  /** LinkHeaderCaptures with the four ends of name and phy as plain numbers. */
  lemma HeaderAt(line: string, a: nat, at: nat, c: nat, d: nat)
    requires a == Run(line, 0, Digit, Plus) + 2 && c == at + 1
    requires a < at && c + 1 < d && FirstBlank(line, a, d + 1)
    requires line[at] == '@' && line[d] == ':' && line[d + 1] == ' '
    requires forall i :: a <= i < at ==> line[i] != '@'
    ensures NamePhyCaptured(LinkPattern, line, a, at, c, d)
  {
    LinkHeaderCaptures(line, at, d + 1);
  }

  /** A record parsed with such captures holds the captured name text... */
  lemma CapturedName(sc: Schema, line: string, a: nat, b: nat, c: nat, d: nat, lib: NetLib)
    requires a <= b <= |line|
    requires FromString(sc, line, lib).Ok? && "name" !in sc.casts && NamePhyCaptured(sc.pattern, line, a, b, c, d)
    ensures Lookup(FromString(sc, line, lib).value.fields, "name") == Some(Text(line[a..b]))
  {
    UncastGroup(sc, line, lib, "name", a, b);
  }

  /** ... and the captured phy text. */
  lemma CapturedPhy(sc: Schema, line: string, a: nat, b: nat, c: nat, d: nat, lib: NetLib)
    requires c <= d <= |line|
    requires FromString(sc, line, lib).Ok? && "phy" !in sc.casts && NamePhyCaptured(sc.pattern, line, a, b, c, d)
    ensures Lookup(FromString(sc, line, lib).value.fields, "phy") == Some(Text(line[c..d]))
  {
    UncastGroup(sc, line, lib, "phy", c, d);
  }

  /** What follows the header has no back-reference and no name or phy group. */
  lemma TailPlain()
    ensures NoRef(FlagsThen(MtuThen(OptionsThen(LayerRest))))
    ensures Names(FlagsThen(MtuThen(OptionsThen(LayerRest)))) ==
      ["flags", "mtu", "qdisc", "state", "mode", "group", "qlen", "type", "addr", "brd"]
  {
    assert NoRef(LayerRest) && Names(LayerRest) == ["type", "addr", "brd"];
    OptionsPlain(LayerRest);
    var o := OptionsThen(LayerRest);
    assert NoRef(MtuThen(o)) && Names(MtuThen(o)) == ["mtu"] + Names(o);
    assert NoRef(FlagsThen(MtuThen(o))) && Names(FlagsThen(MtuThen(o))) == ["flags"] + Names(MtuThen(o));
  }

  lemma OptionsPlain(layer: Pat)
    ensures NoRef(OptionsThen(layer)) == NoRef(layer)
    ensures Names(OptionsThen(layer)) == ["qdisc", "state", "mode", "group", "qlen"] + Names(layer)
  {
    var l1 := Cons(KeywordGroup("qlen", "qlen", NonSpace, Star), Cons(Lit("\\"), layer));
    var l2 := Cons(KeywordGroup("group", "group", NonSpace, Star), l1);
    var l3 := Cons(KeywordGroup("mode", "mode", NonSpace, Star), l2);
    var l4 := Cons(KeywordGroup("state", "state", NonSpace, Star), l3);
    assert NoRef(Cons(Lit("\\"), layer)) == NoRef(layer) && Names(Cons(Lit("\\"), layer)) == Names(layer);
    KeywordPlain("qlen", NonSpace, Star, Cons(Lit("\\"), layer));
    KeywordPlain("group", NonSpace, Star, l1);
    KeywordPlain("mode", NonSpace, Star, l2);
    KeywordPlain("state", NonSpace, Star, l3);
    KeywordPlain("qdisc", NonSpace, Star, l4);
  }

  /** An optional `keyword value` group adds its one name and no back-reference. */
  lemma KeywordPlain(keyword: string, k: CharClass, trail: Quant, rest: Pat)
    ensures NoRef(Cons(KeywordGroup(keyword, keyword, k, trail), rest)) == NoRef(rest)
    ensures Names(Cons(KeywordGroup(keyword, keyword, k, trail), rest)) == [keyword] + Names(rest)
  {
    var body := Cons(Lit(keyword + " "), Cons(Rep(k, Plus, Some(keyword)), Cons(Rep(Space, trail, None), End)));
    assert Names(Cons(Rep(Space, trail, None), End)) == [];
    assert Names(body) == [keyword];
    assert NoRef(body);
  }

  /** The gre line of the tests: if it parses, its name is gre0 and its phy NONE. */
  const GreLine: string :=
    "5: " + "gre0" + "@" + "NONE:" + " " + "<NOARP> mtu 1476 qdisc noop state DOWN \\    link/gre 0.0.0.0 brd 0.0.0.0"

  lemma GreNamePhy(line: string, lib: NetLib)
    requires line == GreLine && FromString(LinkSchema, line, lib).Ok?
    ensures Lookup(FromString(LinkSchema, line, lib).value.fields, "name") == Some(Text("gre0"))
    ensures Lookup(FromString(LinkSchema, line, lib).value.fields, "phy") == Some(Text("NONE"))
  {
    GreShape(line);
    GreTokens(line);
    LinkNamePhy(line, 3, 7, 8, 12, lib);
  }

  lemma GreTokens(line: string)
    requires line == GreLine
    ensures line[3..7] == "gre0" && line[8..12] == "NONE"
  {
    assert forall i :: 3 <= i < 7 ==> line[i] == "gre0"[i - 3];
    assert forall i :: 8 <= i < 12 ==> line[i] == "NONE:"[i - 8];
    assert forall i :: 0 <= i < 4 ==> line[3..7][i] == "gre0"[i];
    assert forall i :: 0 <= i < 4 ==> line[8..12][i] == "NONE"[i];
  }

  lemma GreShape(line: string)
    requires line == GreLine
    ensures Run(line, 0, Digit, Plus) == 1
    ensures FirstBlank(line, 3, 13) && line[7] == '@' && line[12] == ':' && line[13] == ' '
    ensures forall i :: 3 <= i < 7 ==> line[i] != '@'
  {
    assert IsDigit(line[0]) && !IsDigit(line[1]);
    assert forall i :: 3 <= i < 7 ==> line[i] == "gre0"[i - 3];
    assert forall i :: 8 <= i < 13 ==> line[i] == "NONE:"[i - 8];
    assert line[13] == " "[0];
  }

  /** The group names, in the order Python numbers the groups. */
  const LinkGroups: seq<string> :=
    ["num", "name", "phy", "flags", "mtu", "qdisc", "state", "mode", "group", "qlen", "type", "addr", "brd"]

  const LinkCasts: map<string, Cast> := map["num" := IntCast, "mtu" := IntCast]
  const EtherCasts: map<string, Cast> := map["addr" := EuiCast, "brd" := EuiCast] + LinkCasts
  const GreCasts: map<string, Cast> := map["addr" := AddressCast, "brd" := AddressCast] + LinkCasts

  const LinkSchema: Schema := Schema("Link", LinkPattern, LinkCasts)
  const EtherLinkSchema: Schema := Schema("EtherLink", LinkPattern, EtherCasts)
  const GRELinkSchema: Schema := Schema("GRELink", LinkPattern, GreCasts)

  /**
   * A line that does not start with a digit is not a link line: parsing
   * it raises the no-match error, and one such line (an empty one, say)
   * makes a whole query fail.
   */
  lemma LinkNeedsDigit(line: string, lib: NetLib)
    requires line == [] || !InClass(line[0], Digit)
    ensures FromString(LinkSchema, line, lib) == Err(NoMatch("Link", line))
  {
    assert Run(line, 0, Digit, Plus) == 0;
  }

  lemma LinkEmptyLineAborts(lib: NetLib, lines: seq<string>, filt: Option<Arg>, i: nat)
    requires i < |lines| && lines[i] == ""
    ensures Collect(LinkSchema, lib, lines, filt).Err?
  {
    LinkNeedsDigit("", lib);
    CollectFails(LinkSchema, lib, lines, filt, i);
  }

  /** The flags a link attribute may ask about. */
  const ValidFlags: set<string> :=
    {"UP", "LOWER_UP", "LOOPBACK", "BROADCAST", "POINTTOPOINT", "MULTICAST",
     "PROMISC", "ALLMULTI", "NOARP", "DYNAMIC", "MASTER", "SLAVE"}

  /** The pattern has the thirteen groups in this order, each named once. */
  lemma LinkPatternGroups()
    ensures Names(LinkPattern) == LinkGroups
    ensures WellFormed(LinkSchema) && WellFormed(EtherLinkSchema) && WellFormed(GRELinkSchema)
  {
    PartNames();
    NamesAppend(Options, LinkLayer);
    NamesAppend(Header, Append(Options, LinkLayer));
    LinkPatternParts();
    LinkGroupsSplit();
    LinkGroupsUnique();
  }

  lemma PartNames()
    ensures Names(Header) == ["num", "name", "phy", "flags"]
    ensures Names(Options) == ["mtu", "qdisc", "state", "mode", "group", "qlen"]
    ensures Names(LinkLayer) == ["type", "addr", "brd"]
  {
  }

  /** num, name, flags, type, addr and brd take part in every match; the others are optional. */
  lemma LinkPatternRequired()
    ensures forall n :: n in ["num", "name", "flags", "type", "addr", "brd"] ==> n in Required(LinkPattern)
  {
    assert Required(Header) == ["num", "name", "flags"];
    assert Required(LinkLayer) == ["type", "addr", "brd"];
    RequiredAppend(Options, LinkLayer);
    RequiredAppend(Header, Append(Options, LinkLayer));
    RequiredPrefix(Header, Append(Options, LinkLayer));
    LinkPatternParts();
  }

  lemma LinkGroupsSplit()
    ensures ["num", "name", "phy", "flags"] + (["mtu", "qdisc", "state", "mode", "group", "qlen"] + ["type", "addr", "brd"]) == LinkGroups
  {
  }

  lemma LinkGroupsUnique()
    ensures NoDuplicates(LinkGroups)
  {

  }

  // -----------------------------------------------------------------------
  // Parsing a line

  /** num and mtu only ever capture digits. */
  const DigitGroups: map<string, CharClass> := map["num" := Digit, "mtu" := Digit]

  lemma LinkDigitGroups()
    ensures Classed(LinkPattern, DigitGroups)
  {
    PartsClassed();
    ClassedAppend(Options, LinkLayer, DigitGroups);
    ClassedAppend(Header, Append(Options, LinkLayer), DigitGroups);
    LinkPatternParts();
  }

  lemma PartsClassed()
    ensures Classed(Header, DigitGroups) && Classed(Options, DigitGroups) && Classed(LinkLayer, DigitGroups)
  {
    HeaderClassed();
    OptionsClassed();
    LinkLayerClassed();
  }

  lemma HeaderClassed()
    ensures Classed(Header, DigitGroups)
  {
  }

  lemma OptionsClassed()
    ensures Classed(Options, DigitGroups)
  {
  }

  lemma LinkLayerClassed()
    ensures Classed(LinkLayer, DigitGroups)
  {
  }

  /**
   * `Link.from_string` raises exactly when the pattern does not match:
   * its only casts, num and mtu, are applied to runs of digits and cannot
   * fail.
   */
  lemma LinkFromString(line: string, lib: NetLib)
    ensures FromString(LinkSchema, line, lib).Ok? <==> Match(LinkPattern, line, 0, map[]).Some?
  {
    assert WellFormed(LinkSchema) by { LinkPatternGroups(); }
    assert Classed(LinkPattern, DigitGroups) by { LinkDigitGroups(); }
    assert forall n :: n in LinkCasts ==> LinkCasts[n] == IntCast && n in DigitGroups && DigitGroups[n] == Digit;
    DigitCastsParse(LinkSchema, line, lib, DigitGroups);
  }

  /**
   * A parsed link has the thirteen groups as attributes: num is a
   * non-negative int, and so is mtu unless the line has none (None).
   */
  lemma LinkNumbers(line: string, lib: NetLib)
    requires FromString(LinkSchema, line, lib).Ok?
    ensures var f := FromString(LinkSchema, line, lib).value.fields;
      && Keys(f) == LinkGroups
      && Lookup(f, "num").Some? && Lookup(f, "num").value.Int? && Lookup(f, "num").value.num >= 0
      && Lookup(f, "mtu").Some?
      && (Lookup(f, "mtu").value == Null || (Lookup(f, "mtu").value.Int? && Lookup(f, "mtu").value.num >= 0))
  {
    LinkKeys(line, lib);
    LinkNum(line, lib);
    LinkMtu(line, lib);
  }

  /** A parsed link's attributes are the thirteen groups, in order. */
  lemma LinkKeys(line: string, lib: NetLib)
    requires FromString(LinkSchema, line, lib).Ok?
    ensures Keys(FromString(LinkSchema, line, lib).value.fields) == LinkGroups
  {
    LinkPatternGroups();
    FromStringFields(LinkSchema, line, lib);
  }

  /** num always takes part in a match, so it is always an int. */
  lemma LinkNum(line: string, lib: NetLib)
    requires FromString(LinkSchema, line, lib).Ok?
    ensures var f := FromString(LinkSchema, line, lib).value.fields;
      Lookup(f, "num").Some? && Lookup(f, "num").value.Int? && Lookup(f, "num").value.num >= 0
  {
    LinkGroupFacts();
    FieldValue(LinkSchema, line, lib, "num");
  }

  /** mtu is optional: None, or an int. */
  lemma LinkMtu(line: string, lib: NetLib)
    requires FromString(LinkSchema, line, lib).Ok?
    ensures var f := FromString(LinkSchema, line, lib).value.fields;
      && Lookup(f, "mtu").Some?
      && (Lookup(f, "mtu").value == Null || (Lookup(f, "mtu").value.Int? && Lookup(f, "mtu").value.num >= 0))
  {
    LinkGroupFacts();
    FieldValue(LinkSchema, line, lib, "mtu");
  }

  lemma LinkGroupFacts()
    ensures WellFormed(LinkSchema)
    ensures "num" in Names(LinkPattern) && "mtu" in Names(LinkPattern) && "num" in Required(LinkPattern)
    ensures LinkCasts["num"] == IntCast && LinkCasts["mtu"] == IntCast
  {
    LinkPatternGroups();
    LinkPatternRequired();
  }

  /**
   * Every other attribute of a parsed link is the captured text; only the
   * optional groups can be None.
   */
  lemma LinkTexts(line: string, lib: NetLib, n: string)
    requires FromString(LinkSchema, line, lib).Ok? && n in LinkGroups && n !in LinkCasts
    ensures Lookup(FromString(LinkSchema, line, lib).value.fields, n).Some?
    ensures var v := Lookup(FromString(LinkSchema, line, lib).value.fields, n).value;
      && (v.Text? || v == Null)
      && (n in ["name", "flags", "type", "addr", "brd"] ==> v.Text?)
  {
    LinkPatternGroups();
    LinkPatternRequired();
    FieldValue(LinkSchema, line, lib, n);
  }

  /**
   * Both subtypes keep Link's casts and add a converter for addr and brd:
   * EUI (a MAC address) for EtherLink, IPAddress for GRELink.
   */
  lemma SubtypeCasts()
    ensures EtherCasts.Keys == LinkCasts.Keys + {"addr", "brd"}
    ensures GreCasts.Keys == LinkCasts.Keys + {"addr", "brd"}
    ensures forall n :: n in LinkCasts ==> EtherCasts[n] == LinkCasts[n] && GreCasts[n] == LinkCasts[n]
    ensures EtherCasts["addr"] == EtherCasts["brd"] == EuiCast
    ensures GreCasts["addr"] == GreCasts["brd"] == AddressCast
  {
  }

  // -----------------------------------------------------------------------
  // Derived attributes

  /**
   * Reading attribute `name` of a link. A stored attribute is found first;
   * only when there is none does `Link.__getattr__` run: `group` reads as
   * None, a name whose upper-case form is a valid flag asks whether that
   * word occurs in the raw flags text, and any other name falls through
   * to `object`, which has no `__getattr__`: the AttributeError names
   * `__getattr__`. A link without flags fails the same way when the
   * flags are read.
   */
  function LinkAttr(rec: Record, name: string): (r: Result<Value, Error>)
    ensures Lookup(rec.fields, name).Some? ==> r == Ok(Lookup(rec.fields, name).value)
    ensures Lookup(rec.fields, name).None? && name == "group" ==> r == Ok(Null)
    ensures Lookup(rec.fields, name).None? && name != "group" && Upper(name) !in ValidFlags ==>
      r == Err(AttributeError("__getattr__"))
    ensures Lookup(rec.fields, name).None? && name != "group" && Upper(name) in ValidFlags &&
            Lookup(rec.fields, "flags").Some? && Lookup(rec.fields, "flags").value.Text? ==>
      r.Ok? && r.value.Bool? &&
      (r.value.truth <==> Occurs(Lookup(rec.fields, "flags").value.text, Upper(name)))
    ensures r.Ok? && Lookup(rec.fields, name).None? && name != "group" ==> r.value.Bool?
  {
    if Lookup(rec.fields, name).Some? then Ok(Lookup(rec.fields, name).value)
    else if name == "group" then Ok(Null)
    else if Upper(name) !in ValidFlags then Err(AttributeError("__getattr__"))
    else if Lookup(rec.fields, "flags").None? then Err(AttributeError("__getattr__"))
    else if !Lookup(rec.fields, "flags").value.Text? then Err(TypeError("membership test on a non-string flags value"))
    else
      var flags := Lookup(rec.fields, "flags").value.text;
      ContainsIffOccurs(flags, Upper(name));
      Ok(Bool(Contains(flags, Upper(name))))
  }

  /** The flags of the loopback line in the tests. */
  const LoopbackFlagsText: string := "LOOPBACK,UP,LOWER_UP"

  /*
   * The loopback line `1: lo: <LOOPBACK,UP,LOWER_UP> ...` of the tests,
   * stated of any link holding the thirteen attributes of a parsed line
   * (LinkKeys gives them for every line that parses) and those flags.
   */

  /** loopback holds. */
  lemma LoopbackIsLoopback(rec: Record)
    requires Keys(rec.fields) == LinkGroups && Lookup(rec.fields, "flags") == Some(Text(LoopbackFlagsText))
    ensures LinkAttr(rec, "loopback") == Ok(Bool(true))
  {
    LoopbackUpper();
    LoopbackText();
    FlagNamed(rec, "loopback", "LOOPBACK", 0);
  }

  /** up holds. */
  lemma LoopbackIsUp(rec: Record)
    requires Keys(rec.fields) == LinkGroups && Lookup(rec.fields, "flags") == Some(Text(LoopbackFlagsText))
    ensures LinkAttr(rec, "up") == Ok(Bool(true))
  {
    UpUpper();
    LoopbackText();
    FlagNamed(rec, "up", "UP", 9);
  }

  /** lower_up holds. */
  lemma LoopbackIsLowerUp(rec: Record)
    requires Keys(rec.fields) == LinkGroups && Lookup(rec.fields, "flags") == Some(Text(LoopbackFlagsText))
    ensures LinkAttr(rec, "lower_up") == Ok(Bool(true))
  {
    LowerUpUpper();
    LoopbackText();
    FlagNamed(rec, "lower_up", "LOWER_UP", 12);
  }

  /** broadcast does not hold: the flags have no `D`, and BROADCAST has one. */
  lemma LoopbackNotBroadcast(rec: Record)
    requires Keys(rec.fields) == LinkGroups && Lookup(rec.fields, "flags") == Some(Text(LoopbackFlagsText))
    ensures LinkAttr(rec, "broadcast") == Ok(Bool(false))
  {
    BroadcastUpper();
    NotStored(rec, "broadcast");
    NoD();
    AbsentChar(LoopbackFlagsText, "BROADCAST", 4);
  }

  /** A name that is neither stored nor a flag raises. */
  lemma LoopbackUnknown(rec: Record)
    requires Keys(rec.fields) == LinkGroups && Lookup(rec.fields, "flags") == Some(Text(LoopbackFlagsText))
    ensures LinkAttr(rec, "speed") == Err(AttributeError("__getattr__"))
  {
    NotStored(rec, "speed");
    SpeedNotFlag();
  }

  /** The same five facts of a link parsed from a line whose flags group reads `LOOPBACK,UP,LOWER_UP`. */
  lemma ParsedLoopback(line: string, lib: NetLib)
    requires FromString(LinkSchema, line, lib).Ok?
    requires Lookup(FromString(LinkSchema, line, lib).value.fields, "flags") == Some(Text(LoopbackFlagsText))
    ensures var rec := FromString(LinkSchema, line, lib).value;
      && LinkAttr(rec, "loopback") == Ok(Bool(true)) && LinkAttr(rec, "up") == Ok(Bool(true))
      && LinkAttr(rec, "lower_up") == Ok(Bool(true)) && LinkAttr(rec, "broadcast") == Ok(Bool(false))
      && LinkAttr(rec, "speed") == Err(AttributeError("__getattr__"))
  {
    var rec := FromString(LinkSchema, line, lib).value;
    LinkKeys(line, lib);
    LoopbackIsLoopback(rec);
    LoopbackIsUp(rec);
    LoopbackIsLowerUp(rec);
    LoopbackNotBroadcast(rec);
    LoopbackUnknown(rec);
  }

  /** A needle holding a character the haystack lacks occurs nowhere in it. */
  lemma AbsentChar(hay: string, needle: string, k: nat)
    requires k < |needle| && forall j :: 0 <= j < |hay| ==> hay[j] != needle[k]
    ensures !Occurs(hay, needle)
  {
    forall i ensures !OccursAt(hay, needle, i) {
      if 0 <= i && i + |needle| <= |hay| {
        assert hay[i..i + |needle|][k] == hay[i + k];
      }
    }
  }

  lemma NoD()
    ensures forall j :: 0 <= j < |LoopbackFlagsText| ==> LoopbackFlagsText[j] != "BROADCAST"[4]
  {
  }

  /** Where the three flags sit in the loopback flags text. */
  lemma LoopbackText()
    ensures OccursAt(LoopbackFlagsText, "LOOPBACK", 0)
    ensures OccursAt(LoopbackFlagsText, "UP", 9)
    ensures OccursAt(LoopbackFlagsText, "LOWER_UP", 12)
  {
    FlagsAt(LoopbackFlagsText, "LOOPBACK", 0);
    FlagsAt(LoopbackFlagsText, "UP", 9);
    FlagsAt(LoopbackFlagsText, "LOWER_UP", 12);
  }

  lemma FlagsAt(flags: string, flag: string, i: nat)
    requires i + |flag| <= |flags| && forall j :: 0 <= j < |flag| ==> flags[i + j] == flag[j]
    ensures OccursAt(flags, flag, i)
  {
    assert flags[i..i + |flag|] == flag;
  }

  lemma UpUpper()
    ensures Upper("up") == "UP" && "UP" in ValidFlags && "up" !in LinkGroups
  {
  }

  lemma BroadcastUpper()
    ensures Upper("broadcast") == "BROADCAST" && "BROADCAST" in ValidFlags && "broadcast" !in LinkGroups
  {
  }

  lemma LoopbackUpper()
    ensures Upper("loopback") == "LOOPBACK" && "LOOPBACK" in ValidFlags && "loopback" !in LinkGroups
  {
  }

  lemma LowerUpUpper()
    ensures Upper("lower_up") == "LOWER_UP" && "LOWER_UP" in ValidFlags && "lower_up" !in LinkGroups
  {
  }

  lemma SpeedNotFlag()
    ensures Upper("speed") == "SPEED" && "SPEED" !in ValidFlags
  {
    assert Upper("speed") == "SPEED";
    assert "SPEED" !in ValidFlags by {
      assert forall f :: f in ValidFlags ==> |f| != 5 || f[1] != 'P';
    }
  }

  /** A name that is not one of the thirteen groups is not stored on a parsed link. */
  lemma NotStored(rec: Record, name: string)
    requires Keys(rec.fields) == LinkGroups && name !in LinkGroups
    ensures Lookup(rec.fields, name).None?
  {
    forall i | 0 <= i < |rec.fields| ensures rec.fields[i].0 != name {
      assert Keys(rec.fields)[i] == rec.fields[i].0;
    }
  }

  /** A flag `flag` at position i of the stored flags text, and a name that upper-cases to it. */
  lemma FlagNamed(rec: Record, name: string, flag: string, i: nat)
    requires Keys(rec.fields) == LinkGroups && Lookup(rec.fields, "flags").Some? && Lookup(rec.fields, "flags").value.Text?
    requires Upper(name) == flag && flag in ValidFlags && OccursAt(Lookup(rec.fields, "flags").value.text, flag, i)
    requires name !in LinkGroups
    ensures LinkAttr(rec, name) == Ok(Bool(true))
  {
    NotStored(rec, name);
  }

  /** `Link.__getattr__` on a link built without a group: it reads as None. */
  lemma UnsetGroup(rec: Record)
    requires Lookup(rec.fields, "group").None?
    ensures LinkAttr(rec, "group") == Ok(Null)
  {
  }

  /**
   * The test is on the text, not on the list of flags: UP is found inside
   * LOWER_UP, so `up` holds on `<BROADCAST,LOWER_UP>`.
   */
  lemma UpInsideLowerUp(rec: Record)
    requires Keys(rec.fields) == LinkGroups && Lookup(rec.fields, "flags") == Some(Text("BROADCAST,LOWER_UP"))
    ensures LinkAttr(rec, "up") == Ok(Bool(true))
  {
    UpUpper();
    FlagsAt("BROADCAST,LOWER_UP", "UP", 16);
    FlagNamed(rec, "up", "UP", 16);
  }

  // -----------------------------------------------------------------------
  // Choosing the subtype

  /** The classes `construct` can be called on: Link and its two subclasses. */
  predicate LinkClass(cls: Schema) {
    cls == LinkSchema || cls == EtherLinkSchema || cls == GRELinkSchema
  }

  /**
   * The class `construct` picks from the `type` group: EtherLink, GRELink,
   * or the class it was called on.
   */
  function Subtype(cls: Schema, linktype: Option<Value>): Schema {
    if linktype == Some(Text("ether")) then EtherLinkSchema
    else if linktype == Some(Text("gre")) then GRELinkSchema
    else cls
  }

  /**
   * The group dictionary with `group` taken from the query arguments: the
   * argument right after the first "group", IndexError when there is none.
   */
  function WithGroup(result: Dict<Value>, args: seq<Value>): Result<Dict<Value>, Error> {
    match FirstIndex(args, Text("group"))
    case None => Ok(result)
    case Some(i) => if i + 1 < |args| then Ok(Put(result, "group", args[i + 1])) else Err(IndexError)
  }

  /** Taking the group from the arguments keeps the keys distinct. */
  lemma GroupedDistinct(result: Dict<Value>, args: seq<Value>)
    requires Distinct(result) && WithGroup(result, args).Ok?
    ensures Distinct(WithGroup(result, args).value)
  {
    if FirstIndex(args, Text("group")).Some? {
      PutDistinct(result, "group", args[FirstIndex(args, Text("group")).value + 1]);
    }
  }

  /** `cls.construct(result, _, *args)`. */
  function LinkConstruct(cls: Schema, result: Dict<Value>, args: seq<Value>, lib: NetLib): Result<Record, Error> {
    var grouped :- WithGroup(result, args);
    var sc := Subtype(cls, Lookup(grouped, "type"));
    Construct(sc.kind, grouped, sc.casts, lib)
  }

  /**
   * `construct` picks the kind from the type group alone: EtherLink for
   * "ether", GRELink for "gre", and the class it was called on for
   * anything else or no type.
   */
  lemma LinkConstructKind(cls: Schema, result: Dict<Value>, args: seq<Value>, lib: NetLib)
    requires LinkConstruct(cls, result, args, lib).Ok?
    ensures Lookup(result, "type") == Some(Text("ether")) ==> LinkConstruct(cls, result, args, lib).value.kind == "EtherLink"
    ensures Lookup(result, "type") == Some(Text("gre")) ==> LinkConstruct(cls, result, args, lib).value.kind == "GRELink"
    ensures Lookup(result, "type") != Some(Text("ether")) && Lookup(result, "type") != Some(Text("gre")) ==>
      LinkConstruct(cls, result, args, lib).value.kind == cls.kind
  {
    var grouped := WithGroup(result, args).value;
    assert Lookup(grouped, "type") == Lookup(result, "type");
    var sc := Subtype(cls, Lookup(grouped, "type"));
    ConstructNotNoMatch(sc.kind, grouped, sc.casts, lib);
  }

  /**
   * An attribute other than group of the constructed record: the line's
   * value converted by the cast table of the class the type picked.
   */
  lemma ConstructedAt(cls: Schema, result: Dict<Value>, args: seq<Value>, lib: NetLib, k: string)
    requires Distinct(result) && LinkConstruct(cls, result, args, lib).Ok? && k != "group"
    ensures Lookup(result, k).None? ==> Lookup(LinkConstruct(cls, result, args, lib).value.fields, k).None?
    ensures Lookup(result, k).Some? ==>
      && Converted(k, Lookup(result, k).value, Subtype(cls, Lookup(result, "type")).casts, lib).Ok?
      && Lookup(LinkConstruct(cls, result, args, lib).value.fields, k) ==
           Some(Converted(k, Lookup(result, k).value, Subtype(cls, Lookup(result, "type")).casts, lib).value)
  {
    var grouped := WithGroup(result, args).value;
    GroupedDistinct(result, args);
    assert Lookup(grouped, "type") == Lookup(result, "type") && Lookup(grouped, k) == Lookup(result, k);
    var sc := Subtype(cls, Lookup(grouped, "type"));
    ConstructLookup(sc.kind, grouped, sc.casts, lib, k);
  }

  /** What the subtype buys: on an ether link addr and brd hold MAC values... */
  lemma EtherAddr(cls: Schema, result: Dict<Value>, args: seq<Value>, lib: NetLib, k: string, t: string)
    requires Distinct(result) && LinkConstruct(cls, result, args, lib).Ok? && (k == "addr" || k == "brd")
    requires Lookup(result, "type") == Some(Text("ether")) && Lookup(result, k) == Some(Text(t))
    ensures lib.eui(t).Some? && Lookup(LinkConstruct(cls, result, args, lib).value.fields, k) == Some(Mac(lib.eui(t).value))
  {
    AddrCasts(k);
    ConstructedAt(cls, result, args, lib, k);
    NetCasts(k, Text(t), lib);
  }

  /** ... on a gre link IP addresses... */
  lemma GreAddr(cls: Schema, result: Dict<Value>, args: seq<Value>, lib: NetLib, k: string, t: string)
    requires Distinct(result) && LinkConstruct(cls, result, args, lib).Ok? && (k == "addr" || k == "brd")
    requires Lookup(result, "type") == Some(Text("gre")) && Lookup(result, k) == Some(Text(t))
    ensures lib.address(t).Some? && Lookup(LinkConstruct(cls, result, args, lib).value.fields, k) == Some(Address(lib.address(t).value))
  {
    AddrCasts(k);
    ConstructedAt(cls, result, args, lib, k);
    NetCasts(k, Text(t), lib);
  }

  /** ... and on any other link built by Link.construct, the value the line gave. */
  lemma PlainAddr(result: Dict<Value>, args: seq<Value>, lib: NetLib, k: string)
    requires Distinct(result) && LinkConstruct(LinkSchema, result, args, lib).Ok? && (k == "addr" || k == "brd")
    requires Lookup(result, "type") != Some(Text("ether")) && Lookup(result, "type") != Some(Text("gre"))
    ensures Lookup(LinkConstruct(LinkSchema, result, args, lib).value.fields, k) == Lookup(result, k)
  {
    AddrCasts(k);
    ConstructedAt(LinkSchema, result, args, lib, k);
  }

  lemma AddrCasts(k: string)
    requires k == "addr" || k == "brd"
    ensures k != "group" && k !in LinkCasts
    ensures k in EtherLinkSchema.casts && EtherLinkSchema.casts[k] == EuiCast
    ensures k in GRELinkSchema.casts && GRELinkSchema.casts[k] == AddressCast
  {
  }

  /**
   * The group attribute of the constructed record is the query argument
   * after the first "group" when there is one, and otherwise whatever
   * the line gave; no other attribute is added or dropped. A trailing
   * "group" with nothing after it raises IndexError.
   */
  lemma LinkConstructGroup(cls: Schema, result: Dict<Value>, args: seq<Value>, lib: NetLib)
    requires LinkClass(cls) && Distinct(result)
    ensures FirstIndex(args, Text("group")).Some? && FirstIndex(args, Text("group")).value == |args| - 1 ==>
      LinkConstruct(cls, result, args, lib) == Err(IndexError)
    ensures LinkConstruct(cls, result, args, lib).Ok? && Text("group") in args ==>
      Lookup(LinkConstruct(cls, result, args, lib).value.fields, "group") == Some(args[FirstIndex(args, Text("group")).value + 1])
    ensures LinkConstruct(cls, result, args, lib).Ok? && Text("group") !in args ==>
      Lookup(LinkConstruct(cls, result, args, lib).value.fields, "group") == Lookup(result, "group")
    ensures LinkConstruct(cls, result, args, lib).Ok? ==>
      forall k :: k != "group" ==>
        (Lookup(LinkConstruct(cls, result, args, lib).value.fields, k).Some? <==> Lookup(result, k).Some?)
  {
    if LinkConstruct(cls, result, args, lib).Ok? {
      var grouped := WithGroup(result, args).value;
      GroupedDistinct(result, args);
      var sc := Subtype(cls, Lookup(grouped, "type"));
      assert "group" !in sc.casts;
      forall k ensures Lookup(LinkConstruct(cls, result, args, lib).value.fields, k).Some? <==> Lookup(grouped, k).Some? {
        ConstructLookup(sc.kind, grouped, sc.casts, lib, k);
      }
      ConstructLookup(sc.kind, grouped, sc.casts, lib, "group");
    }
  }
}
