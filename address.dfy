/**
 * Interface addresses, as `ip -o addr show` prints them
 * (ipyroute/address.py): the address line grammar and cast table, the
 * `<scope>_scope` attributes, the order in which the two address families
 * are queried, and the keyword orders of `add` and `delete`.
 */
module Address {
  import opened Common
  import opened Dicts
  import opened Regex
  import opened Values
  import opened Base

  // -----------------------------------------------------------------------
  // The address grammar

  /** `(@(?P<phy>\S+))?` */
  const PhyGroup: Item := Opt(Cons(Lit("@"), Cons(Rep(NonSpace, Plus, Some("phy")), End)))

  /** `(inet|inet6)` */
  const FamilyWord: Item := Alt(Cons(Lit("inet"), End), Cons(Lit("inet6"), End))

  /** `(brd (?P<brd>\S+))?` and `(peer (?P<peer>\S+))?` */
  function ValueGroup(keyword: string, name: string): Item {
    Opt(Cons(Lit(keyword + " "), Cons(Rep(NonSpace, Plus, Some(name)), End)))
  }

  /** `(:(?P<label>\S+))?` */
  const LabelGroup: Item := Opt(Cons(Lit(":"), Cons(Rep(NonSpace, Plus, Some("label")), End)))

  /**
   * Everything after the address: the optional broadcast and peer, the
   * scope, the interface name again (a back-reference, optional), the
   * optional label, and the backslash `ip -o` ends the first line of an
   * address with.
   */
  const AfterAddr: Pat :=
    Cons(ValueGroup("brd", "brd"), Cons(Rep(Space, Quest, None),
    Cons(ValueGroup("peer", "peer"), Cons(Rep(Space, Quest, None),
    Cons(Lit("scope "), Cons(Rep(NonSpace, Plus, Some("scope")), Cons(Lit(" "),
    Cons(Opt(Cons(Ref("ifname"), End)), Cons(LabelGroup, Cons(Lit("\\"), End))))))))))

  /** From the optional `@phy` on: the family word and the address. */
  const AfterName: Pat :=
    Cons(PhyGroup, Cons(Rep(Space, Plus, None), Cons(FamilyWord, Cons(Lit(" "),
    Cons(Rep(NonSpace, Plus, Some("addr")), Cons(Lit(" "), AfterAddr))))))

  /** `(?P<ifnum>\d+): (?P<ifname>\S+?)` and the rest: the name is the shortest that lets the rest match. */
  const AddressPattern: Pat :=
    Cons(Rep(Digit, Plus, Some("ifnum")), Cons(Lit(": "), Cons(Rep(NonSpace, LazyPlus, Some("ifname")), AfterName)))

  const AddressGroups: seq<string> := ["ifnum", "ifname", "phy", "addr", "brd", "peer", "scope", "label"]

  /** ifnum is an int, addr and peer are IPNetworks, brd is an IPAddress. */
  const AddressCasts: map<string, Cast> :=
    map["ifnum" := IntCast, "addr" := NetworkCast, "brd" := AddressCast, "peer" := NetworkCast]

  const AddressDigits: map<string, CharClass> := map["ifnum" := Digit]

  /** The scopes that have an attribute of their own. */
  const Scopes: set<string> := {"host", "link", "global"}

  const AddressSchema: Schema := Schema("Address", AddressPattern, AddressCasts)

  lemma AddressPatternGroups()
    ensures Names(AddressPattern) == AddressGroups
    ensures NoDuplicates(AddressGroups)
    ensures WellFormed(AddressSchema)
  {
    AfterNameNames();
  }

  lemma AfterAddrNames()
    ensures Names(AfterAddr) == ["brd", "peer", "scope", "label"]
  {
  }

  lemma AfterNameNames()
    ensures Names(AfterName) == ["phy", "addr", "brd", "peer", "scope", "label"]
  {
    AfterAddrNames();
  }

  lemma AddressPatternRequired()
    ensures Required(AddressPattern) == ["ifnum", "ifname", "addr", "scope"]
  {
    assert Required(AfterAddr) == ["scope"];
    assert Required(AfterName) == ["addr", "scope"];
  }

  lemma AddressPatternClassed()
    ensures Classed(AddressPattern, AddressDigits)
  {
    assert Classed(AfterAddr, AddressDigits);
    assert Classed(AfterName, AddressDigits);
  }

  /** Which groups the address table casts, and to what. */
  lemma AddressCastTable()
    ensures forall k :: k in AddressCasts ==> k in {"ifnum", "addr", "brd", "peer"}
    ensures AddressCasts["ifnum"] == IntCast && "ifnum" in AddressDigits && AddressDigits["ifnum"] == Digit
    ensures AddressCasts["addr"] == NetworkCast && AddressCasts["peer"] == NetworkCast
    ensures AddressCasts["brd"] == AddressCast
    ensures "ifname" !in AddressCasts && "phy" !in AddressCasts && "scope" !in AddressCasts && "label" !in AddressCasts
  {
  }

  /** `\d+: \S` at the start of the line. */
  predicate AddressHead(line: string) {
    var n := Run(line, 0, Digit, Plus);
    1 <= n && n + 2 < |line| && line[n] == ':' && line[n + 1] == ' ' && !IsSpace(line[n + 2])
  }

  /**
   * Only a line that starts with the interface number, a colon, a space
   * and a name can match.
   */
  lemma AddressNeedsHead(line: string)
    requires Match(AddressPattern, line, 0, map[]).Some?
    ensures AddressHead(line)
  {
    HeadNeeded(AfterName, line);
  }

  lemma HeadNeeded(after: Pat, line: string)
    requires Match(Cons(Rep(Digit, Plus, Some("ifnum")), Cons(Lit(": "), Cons(Rep(NonSpace, LazyPlus, Some("ifname")), after))),
                   line, 0, map[]).Some?
    ensures AddressHead(line)
  {
    var rest := Cons(Lit(": "), Cons(Rep(NonSpace, LazyPlus, Some("ifname")), after));
    var j := RepStep(Digit, Plus, Some("ifnum"), rest, line, 0, map[]);
    var env := Bind(map[], Some("ifnum"), 0, j);
    assert j + 2 <= |line| && LitAt(line, j, ": ");
    assert line[j] == ':' && line[j + 1] == ' ';
    var k := RepStep(NonSpace, LazyPlus, Some("ifname"), after, line, j + 2, env);
  }

  /**
   * Parsing an address line: it raises the no-match error exactly when the
   * pattern fails. The interface number always parses as an int, so the
   * only casts that can fail are those of the address, the broadcast and
   * the peer.
   */
  lemma AddressFromString(line: string, lib: NetLib)
    ensures FromString(AddressSchema, line, lib).Err? && FromString(AddressSchema, line, lib).error.NoMatch? <==>
      Match(AddressPattern, line, 0, map[]).None?
    ensures FromString(AddressSchema, line, lib).Err? && !FromString(AddressSchema, line, lib).error.NoMatch? ==>
      && FromString(AddressSchema, line, lib).error.CastFailure?
      && FromString(AddressSchema, line, lib).error.key in {"addr", "brd", "peer"}
  {
    if FromString(AddressSchema, line, lib).Err? && Match(AddressPattern, line, 0, map[]).Some? {
      AddressPatternGroups();
      AddressPatternClassed();
      MatchedFailure(AddressSchema, line, lib, AddressDigits);
      AddressCastTable();
    }
  }

  /**
   * A line of `ip -o addr show` output: interface 2, eth0, an IPv4
   * address with a broadcast, global scope, the label repeated, and the
   * backslash that ends the first line of an address.
   */
  const SampleLine: string :=
    "2" + ": " + "eth0" + "    " + "inet" + " " + "10.0.0.1/8" + " " + "brd " + "10.255.255.255" + " " +
    "scope " + "global" + " " + "eth0" + "\\"

  /**
   * What the match of the sample line relies on: the literal words at
   * their places, the length of each run of digits, blanks or non-blanks,
   * and the name repeated at 59.
   */
  predicate SampleShaped(line: string) {
    && |line| == 64
    && line[1..3] == ": " && line[11..15] == "inet" && line[15..16] == " " && line[26..27] == " "
    && line[27..31] == "brd " && line[46..52] == "scope " && line[58..59] == " " && line[63..64] == "\\"
    && TextAt(line, 3, 7, 59)
    && Run(line, 0, Digit, Plus) == 1 && Run(line, 3, NonSpace, LazyPlus) == 4 && Run(line, 7, Space, Plus) == 4
    && Run(line, 16, NonSpace, Plus) == 10 && Run(line, 31, NonSpace, Plus) == 14
    && Run(line, 45, Space, Quest) == 1 && Run(line, 46, Space, Quest) == 0 && Run(line, 52, NonSpace, Plus) == 6
  }

  /** `2: eth0    `: one digit, the colon, a four-character name and four blanks. */
  predicate SampleHeadChars(line: string)
    requires |line| == 64
  {
    && IsDigit(line[0]) && !IsDigit(line[1]) && line[1..3] == ": "
    && (forall i :: 3 <= i < 7 ==> !IsSpace(line[i]))
    && (forall i :: 7 <= i < 11 ==> IsSpace(line[i])) && !IsSpace(line[11])
  }

  /** `inet 10.0.0.1/8 ` */
  predicate SampleAddrChars(line: string)
    requires |line| == 64
  {
    && line[11..15] == "inet" && line[15..16] == " "
    && (forall i :: 16 <= i < 26 ==> !IsSpace(line[i])) && line[26..27] == " "
  }

  /** `brd 10.255.255.255 ` */
  predicate SampleBrdChars(line: string)
    requires |line| == 64
  {
    line[27..31] == "brd " && (forall i :: 31 <= i < 45 ==> !IsSpace(line[i])) && IsSpace(line[45]) && line[45] == ' '
  }

  /** `scope global eth0` and the closing backslash, the name the same as at 3..7. */
  predicate SampleTailChars(line: string)
    requires |line| == 64
  {
    && line[46..52] == "scope " && (forall i :: 52 <= i < 58 ==> !IsSpace(line[i])) && line[58..59] == " "
    && TextAt(line, 3, 7, 59) && line[63..64] == "\\"
  }

  lemma SampleIsShaped()
    ensures SampleShaped(SampleLine)
  {
    SampleHeadRuns();
    SampleAddrChars64();
    SampleAddrRuns();
    SampleTailRuns();
  }

  lemma SampleHeadRuns()
    ensures |SampleLine| == 64 && SampleLine[1..3] == ": "
    ensures Run(SampleLine, 0, Digit, Plus) == 1 && Run(SampleLine, 3, NonSpace, LazyPlus) == 4
    ensures Run(SampleLine, 7, Space, Plus) == 4
  {
    SampleHeadChars64();
    RunIs(SampleLine, 0, Digit, Plus, 1);
    RunIs(SampleLine, 3, NonSpace, LazyPlus, 4);
    RunIs(SampleLine, 7, Space, Plus, 4);
  }

  lemma SampleAddrRuns()
    ensures |SampleLine| == 64 && Run(SampleLine, 16, NonSpace, Plus) == 10
    ensures SampleLine[27..31] == "brd " && Run(SampleLine, 31, NonSpace, Plus) == 14
    ensures Run(SampleLine, 45, Space, Quest) == 1
  {
    SampleAddrChars64();
    SampleBrdChars64();
    assert SampleLine[26] == ' ';
    RunIs(SampleLine, 16, NonSpace, Plus, 10);
    RunIs(SampleLine, 31, NonSpace, Plus, 14);
  }

  lemma SampleTailRuns()
    ensures |SampleLine| == 64 && SampleLine[46..52] == "scope " && SampleLine[58..59] == " "
    ensures SampleLine[63..64] == "\\" && TextAt(SampleLine, 3, 7, 59)
    ensures Run(SampleLine, 46, Space, Quest) == 0 && Run(SampleLine, 52, NonSpace, Plus) == 6
  {
    SampleTailChars64();
    assert SampleLine[46] == 's';
    assert SampleLine[58] == ' ';
    RunIs(SampleLine, 52, NonSpace, Plus, 6);
  }

  lemma SampleHeadChars64()
    ensures |SampleLine| == 64 && SampleHeadChars(SampleLine)
  {
    assert SampleLine[1..3] == ": ";
  }

  lemma SampleAddrChars64()
    ensures |SampleLine| == 64 && SampleAddrChars(SampleLine)
  {
    assert SampleLine[11..15] == "inet";
  }

  lemma SampleBrdChars64()
    ensures |SampleLine| == 64 && SampleBrdChars(SampleLine)
  {
    assert SampleLine[27..31] == "brd ";
  }

  lemma SampleTailChars64()
    ensures |SampleLine| == 64 && SampleTailChars(SampleLine)
  {
    var line := SampleLine;
    assert line[46..52] == "scope ";
    assert TextAt(line, 6, 7, 62);
    assert TextAt(line, 5, 7, 61);
    assert TextAt(line, 4, 7, 60);
  }

  /** The sample's end: no label, then the backslash. */
  lemma SampleEnd(line: string, env: Env)
    requires SampleShaped(line) && SpansIn(env, |line|)
    ensures Match(Cons(LabelGroup, Cons(Lit("\\"), End)), line, 63, env).Some?
  {
    var t := Cons(Lit("\\"), End);
    LitStep("\\", End, line, 63, env);
    assert Append(End, t) == t;
    AltFinds(Cons(Lit(":"), Cons(Rep(NonSpace, Plus, Some("label")), End)), End, t, line, 63, env);
  }

  /** The interface name again, matched by the back-reference to the one captured at 3..7. */
  lemma SampleNameAgain(line: string, env: Env)
    requires SampleShaped(line) && SpansIn(env, |line|) && "ifname" in env && env["ifname"] == (3, 7)
    ensures Match(Cons(Opt(Cons(Ref("ifname"), End)), Cons(LabelGroup, Cons(Lit("\\"), End))), line, 59, env).Some?
  {
    var t := Cons(LabelGroup, Cons(Lit("\\"), End));
    SampleEnd(line, env);
    assert Match(Cons(Ref("ifname"), t), line, 59, env) == Match(t, line, 63, env);
    assert Append(Cons(Ref("ifname"), End), t) == Cons(Ref("ifname"), t);
    AltFinds(Cons(Ref("ifname"), End), End, t, line, 59, env);
  }

  /** From the scope on: `scope global`, a blank, the name again and the backslash. */
  lemma SampleScope(line: string, env: Env)
    requires SampleShaped(line) && SpansIn(env, |line|) && "ifname" in env && env["ifname"] == (3, 7)
    ensures Match(AfterAddr.tail.tail.tail.tail, line, 46, env).Some?
  {
    var t8 := Cons(Opt(Cons(Ref("ifname"), End)), Cons(LabelGroup, Cons(Lit("\\"), End)));
    var t7 := Cons(Lit(" "), t8);
    assert AfterAddr.tail.tail.tail.tail == Cons(Lit("scope "), Cons(Rep(NonSpace, Plus, Some("scope")), t7));
    var env' := Bind(env, Some("scope"), 52, 58);
    BindSpans(env, Some("scope"), 52, 58, |line|);
    SampleNameAgain(line, env');
    LitStep(" ", t8, line, 58, env');
    RepFinds(NonSpace, Plus, Some("scope"), t7, line, 52, env, 6);
    LitStep("scope ", Cons(Rep(NonSpace, Plus, Some("scope")), t7), line, 46, env);
  }

  /** The optional blank before the scope, taken empty. */
  lemma SampleBeforeScope(line: string, env: Env)
    requires SampleShaped(line) && SpansIn(env, |line|) && "ifname" in env && env["ifname"] == (3, 7)
    ensures Match(AfterAddr.tail.tail.tail, line, 46, env).Some?
  {
    var t := AfterAddr.tail.tail.tail.tail;
    SampleScope(line, env);
    QuestSkipped(Space, t, line, 46, env);
  }

  /** An optional character class matches the empty string. */
  lemma QuestSkipped(k: CharClass, rest: Pat, s: string, pos: nat, env: Env)
    requires pos <= |s| && SpansIn(env, |s|) && Match(rest, s, pos, env).Some?
    ensures Match(Cons(Rep(k, Quest, None), rest), s, pos, env).Some?
  {
    RepFinds(k, Quest, None, rest, s, pos, env, 0);
  }

  /** No peer: the group is skipped. */
  lemma SampleNoPeer(line: string, env: Env)
    requires SampleShaped(line) && SpansIn(env, |line|) && "ifname" in env && env["ifname"] == (3, 7)
    ensures Match(AfterAddr.tail.tail, line, 46, env).Some?
  {
    var t := AfterAddr.tail.tail.tail;
    assert "peer" + " " == "peer ";
    assert AfterAddr.tail.tail == Cons(Opt(Cons(Lit("peer "), Cons(Rep(NonSpace, Plus, Some("peer")), End))), t);
    SampleBeforeScope(line, env);
    assert Append(End, t) == t;
    AltFinds(Cons(Lit("peer "), Cons(Rep(NonSpace, Plus, Some("peer")), End)), End, t, line, 46, env);
  }

  /** The blank after the broadcast address. */
  lemma SampleAfterBrd(line: string, env: Env)
    requires SampleShaped(line) && SpansIn(env, |line|) && "ifname" in env && env["ifname"] == (3, 7)
    ensures Match(AfterAddr.tail, line, 45, env).Some?
  {
    SampleNoPeer(line, env);
    RepFinds(Space, Quest, None, AfterAddr.tail.tail, line, 45, env, 1);
  }

  /** `brd 10.255.255.255`, captured as brd. */
  lemma SampleBrd(line: string, env: Env)
    requires SampleShaped(line) && SpansIn(env, |line|) && "ifname" in env && env["ifname"] == (3, 7)
    ensures Match(Cons(Lit("brd "), Cons(Rep(NonSpace, Plus, Some("brd")), AfterAddr.tail)), line, 27, env).Some?
  {
    var env' := Bind(env, Some("brd"), 31, 45);
    BindSpans(env, Some("brd"), 31, 45, |line|);
    SampleAfterBrd(line, env');
    RepFinds(NonSpace, Plus, Some("brd"), AfterAddr.tail, line, 31, env, 14);
    LitStep("brd ", Cons(Rep(NonSpace, Plus, Some("brd")), AfterAddr.tail), line, 27, env);
  }

  /** From the end of the address on: the broadcast group taken. */
  lemma SampleAfterAddr(line: string, env: Env)
    requires SampleShaped(line) && SpansIn(env, |line|) && "ifname" in env && env["ifname"] == (3, 7)
    ensures Match(AfterAddr, line, 27, env).Some?
  {
    var t := AfterAddr.tail;
    assert "brd" + " " == "brd ";
    assert AfterAddr == Cons(Opt(Cons(Lit("brd "), Cons(Rep(NonSpace, Plus, Some("brd")), End))), t);
    SampleBrd(line, env);
    assert Append(Cons(Lit("brd "), Cons(Rep(NonSpace, Plus, Some("brd")), End)), t) ==
      Cons(Lit("brd "), Cons(Rep(NonSpace, Plus, Some("brd")), t));
    AltFinds(Cons(Lit("brd "), Cons(Rep(NonSpace, Plus, Some("brd")), End)), End, t, line, 27, env);
  }

  /** The address `10.0.0.1/8` and the blank after it. */
  lemma SampleAddr(line: string, env: Env)
    requires SampleShaped(line) && SpansIn(env, |line|) && "ifname" in env && env["ifname"] == (3, 7)
    ensures Match(AfterName.tail.tail.tail.tail, line, 16, env).Some?
  {
    var env' := Bind(env, Some("addr"), 16, 26);
    BindSpans(env, Some("addr"), 16, 26, |line|);
    SampleAfterAddr(line, env');
    LitStep(" ", AfterAddr, line, 26, env');
    RepFinds(NonSpace, Plus, Some("addr"), AfterName.tail.tail.tail.tail.tail, line, 16, env, 10);
  }

  /** The family word `inet` and the blank after it. */
  lemma SampleFamily(line: string, env: Env)
    requires SampleShaped(line) && SpansIn(env, |line|) && "ifname" in env && env["ifname"] == (3, 7)
    ensures Match(AfterName.tail.tail, line, 11, env).Some?
  {
    var a4 := AfterName.tail.tail.tail;
    assert AfterName.tail.tail == Cons(Alt(Cons(Lit("inet"), End), Cons(Lit("inet6"), End)), a4);
    SampleAddr(line, env);
    LitStep(" ", a4.tail, line, 15, env);
    LitStep("inet", a4, line, 11, env);
    assert Append(Cons(Lit("inet"), End), a4) == Cons(Lit("inet"), a4);
    AltFinds(Cons(Lit("inet"), End), Cons(Lit("inet6"), End), a4, line, 11, env);
  }

  /** The blanks between the name and the family word. */
  lemma SampleBlanks(line: string, env: Env)
    requires SampleShaped(line) && SpansIn(env, |line|) && "ifname" in env && env["ifname"] == (3, 7)
    ensures Match(AfterName.tail, line, 7, env).Some?
  {
    SampleFamily(line, env);
    RepFinds(Space, Plus, None, AfterName.tail.tail, line, 7, env, 4);
  }

  /** From the end of the name on: no `@phy`, then the blanks. */
  lemma SampleAfterName(line: string, env: Env)
    requires SampleShaped(line) && SpansIn(env, |line|) && "ifname" in env && env["ifname"] == (3, 7)
    ensures Match(AfterName, line, 7, env).Some?
  {
    var a2 := AfterName.tail;
    assert AfterName == Cons(Opt(Cons(Lit("@"), Cons(Rep(NonSpace, Plus, Some("phy")), End))), a2);
    SampleBlanks(line, env);
    assert Append(End, a2) == a2;
    AltFinds(Cons(Lit("@"), Cons(Rep(NonSpace, Plus, Some("phy")), End)), End, a2, line, 7, env);
  }

  /** The interface name `eth0`, the shortest run that lets the rest match. */
  lemma SampleName(line: string)
    requires SampleShaped(line)
    ensures Match(AddressPattern.tail.tail, line, 3, Bind(map[], Some("ifnum"), 0, 1)).Some?
  {
    var env := Bind(map[], Some("ifnum"), 0, 1);
    BindSpans(map[], Some("ifnum"), 0, 1, |line|);
    BindSpans(env, Some("ifname"), 3, 7, |line|);
    SampleAfterName(line, Bind(env, Some("ifname"), 3, 7));
    RepFinds(NonSpace, LazyPlus, Some("ifname"), AfterName, line, 3, env, 4);
  }

  /** The colon and blank after the interface number. */
  lemma SampleColon(line: string)
    requires SampleShaped(line)
    ensures Match(AddressPattern.tail, line, 1, Bind(map[], Some("ifnum"), 0, 1)).Some?
  {
    var env := Bind(map[], Some("ifnum"), 0, 1);
    BindSpans(map[], Some("ifnum"), 0, 1, |line|);
    SampleName(line);
    assert AddressPattern.tail == Cons(Lit(": "), AddressPattern.tail.tail);
    LitStep(": ", AddressPattern.tail.tail, line, 1, env);
  }

  /** A line of the sample's shape matches the address pattern from its start. */
  lemma ShapedMatches(line: string)
    requires SampleShaped(line)
    ensures Match(AddressPattern, line, 0, map[]).Some?
  {
    SampleColon(line);
    assert AddressPattern == Cons(Rep(Digit, Plus, Some("ifnum")), AddressPattern.tail);
    RepFinds(Digit, Plus, Some("ifnum"), AddressPattern.tail, line, 0, map[], 1);
  }

  /**
   * The grammar reads real `ip -o addr` output: the sample line matches,
   * so reading it never raises the no-match error.
   */
  lemma SampleLineMatches(lib: NetLib)
    ensures Match(AddressPattern, SampleLine, 0, map[]).Some?
    ensures !(FromString(AddressSchema, SampleLine, lib).Err? && FromString(AddressSchema, SampleLine, lib).error.NoMatch?)
  {
    SampleIsShaped();
    ShapedMatches(SampleLine);
    AddressFromString(SampleLine, lib);
  }

  /** The attributes of a parsed address, by the kind of value each holds. */
  lemma AddressFields(line: string, lib: NetLib, n: string)
    requires FromString(AddressSchema, line, lib).Ok? && n in AddressGroups
    ensures Lookup(FromString(AddressSchema, line, lib).value.fields, n).Some?
    ensures var v := Lookup(FromString(AddressSchema, line, lib).value.fields, n).value;
      && (n == "ifnum" ==> v.Int? && v.num >= 0)
      && (n == "addr" ==> v.Network?)
      && (n in {"ifname", "scope"} ==> v.Text?)
      && (n == "brd" ==> v == Null || v.Address?)
      && (n == "peer" ==> v == Null || v.Network?)
      && (n in {"phy", "label"} ==> v == Null || v.Text?)
  {
    AddressPatternGroups();
    AddressPatternRequired();
    FieldValue(AddressSchema, line, lib, n);
    AddressCastTable();
  }

  // -----------------------------------------------------------------------
  // The `<scope>_scope` attributes

  /**
   * Reading attribute `name` of an address. A stored attribute is found
   * first; only when there is none does `Address.__getattr__` run. It
   * splits the name on `_scope`: exactly two pieces, the first a known
   * scope and the second empty, ask whether that scope is the address's
   * scope; anything else raises AttributeError for the name. Reading the
   * scope itself goes through the same lookup, so a record without one
   * raises AttributeError for `scope`.
   */
  function AddressAttr(rec: Record, name: string): (r: Result<Value, Error>)
    ensures Lookup(rec.fields, name).Some? ==> r == Ok(Lookup(rec.fields, name).value)
    ensures r.Err? ==> r.error.AttributeError?
  {
    if Lookup(rec.fields, name).Some? then Ok(Lookup(rec.fields, name).value)
    else
      var parts := Split(name, "_scope");
      if |parts| == 2 && parts[0] in Scopes && parts[1] == "" then
        match Lookup(rec.fields, "scope")
        case Some(v) => Ok(Bool(Text(parts[0]) == v))
        case None => Err(AttributeError("scope"))
      else Err(AttributeError(name))
  }

  /**
   * `host_scope`, `link_scope` and `global_scope` ask whether the scope is
   * that word.
   */
  lemma ScopeAttr(rec: Record, s: string)
    requires s in Scopes && Lookup(rec.fields, s + "_scope").None? && Lookup(rec.fields, "scope").Some?
    ensures AddressAttr(rec, s + "_scope") == Ok(Bool(Lookup(rec.fields, "scope").value == Text(s)))
  {
    SplitScopeName(s);
  }

  /** Without a stored scope, the scope attributes raise AttributeError for `scope`. */
  lemma ScopeAttrUnset(rec: Record, s: string)
    requires s in Scopes && Lookup(rec.fields, s + "_scope").None? && Lookup(rec.fields, "scope").None?
    ensures AddressAttr(rec, s + "_scope") == Err(AttributeError("scope"))
  {
    SplitScopeName(s);
  }

  /** Every other name that is not stored raises AttributeError for itself. */
  lemma OtherAttr(rec: Record, name: string)
    requires Lookup(rec.fields, name).None?
    requires forall s :: s in Scopes ==> name != s + "_scope"
    ensures AddressAttr(rec, name) == Err(AttributeError(name))
  {
    SplitInTwo(name, "_scope");
  }

  /** A known scope followed by `_scope` splits into the scope and nothing. */
  lemma SplitScopeName(s: string)
    requires s in Scopes
    ensures Split(s + "_scope", "_scope") == [s, ""]
  {
    ScopeWords(s);
    SuffixSplit(s, "_scope");
  }

  /** The scopes are short words without an underscore. */
  lemma ScopeWords(s: string)
    requires s in Scopes
    ensures 4 <= |s| <= 6 && s[0] in {'h', 'l', 'g'}
    ensures forall j :: 0 <= j < |s| ==> s[j] != '_'
  {
  }

  /** The scope attributes of an address whose scope is global. */
  lemma GlobalScope(rec: Record)
    requires Keys(rec.fields) == AddressGroups && Lookup(rec.fields, "scope") == Some(Text("global"))
    ensures AddressAttr(rec, "global_scope") == Ok(Bool(true))
  {
    var s := "global";
    assert s + "_scope" == "global_scope";
    LookupAbsent(rec.fields, s + "_scope");
    ScopeAttr(rec, s);
  }

  /** ... and asking for another scope answers false. */
  lemma GlobalIsNotHost(rec: Record)
    requires Keys(rec.fields) == AddressGroups && Lookup(rec.fields, "scope") == Some(Text("global"))
    ensures AddressAttr(rec, "host_scope") == Ok(Bool(false))
  {
    var s := "host";
    assert s + "_scope" == "host_scope";
    LookupAbsent(rec.fields, s + "_scope");
    ScopeAttr(rec, s);
    assert Text("global") != Text(s) by {
      assert "global"[0] != s[0];
    }
  }

  /** An unknown scope, and text after `_scope`, raise AttributeError. */
  lemma UnknownScopes(rec: Record)
    requires Keys(rec.fields) == AddressGroups
    ensures AddressAttr(rec, "site_scope") == Err(AttributeError("site_scope"))
    ensures AddressAttr(rec, "global_scope_scope") == Err(AttributeError("global_scope_scope"))
  {
    LookupAbsent(rec.fields, "site_scope");
    LookupAbsent(rec.fields, "global_scope_scope");
    forall s | s in Scopes ensures "site_scope" != s + "_scope" && "global_scope_scope" != s + "_scope" {
      ScopeWords(s);
      assert (s + "_scope")[0] == s[0];
    }
    OtherAttr(rec, "site_scope");
    OtherAttr(rec, "global_scope_scope");
  }

  // -----------------------------------------------------------------------
  // Querying and commands

  /** `_get`: every IPv4 line, then every IPv6 line, for the same arguments. */
  function AddressLines(v4: seq<Arg> -> seq<string>, v6: seq<Arg> -> seq<string>): seq<Arg> -> seq<string> {
    args => v4(args) + v6(args)
  }

  /**
   * A query returns the IPv4 addresses before the IPv6 ones, each family
   * in the order the tool printed it; the first line that fails ends it.
   */
  lemma AddressGetOrder(lib: NetLib, v4: seq<Arg> -> seq<string>, v6: seq<Arg> -> seq<string>,
                        args: seq<Arg>, kwargs: Dict<Arg>)
    ensures var argv := ToolArgs(args, kwargs);
      var filt := Lookup(kwargs, "filt");
      Get(AddressSchema, lib, AddressLines(v4, v6), args, kwargs) ==
        Chain(Collect(AddressSchema, lib, v4(argv), filt), Collect(AddressSchema, lib, v6(argv), filt))
  {
    var argv := ToolArgs(args, kwargs);
    CollectAppend(AddressSchema, lib, v4(argv), v6(argv), Lookup(kwargs, "filt"));
  }

  /** `add`: the `addr add` command with its keyword order. */
  const AddressAdd: Command := Command(["add"], ["peer", "dev", "scope", "to", "label"])

  /** `delete`: the `addr del` command with its keyword order. */
  const AddressDelete: Command := Command(["del"], ["peer", "dev", "label"])
}
