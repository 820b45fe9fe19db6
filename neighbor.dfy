/**
 * Neighbours, as `ip neigh show` prints them (ipyroute/neighbor.py): the
 * neighbour line grammar and cast table, the NUD-state attributes, the
 * order in which the two address families are queried, and the commands
 * that change the neighbour table.
 */
module Neighbor {
  import opened Common
  import opened Dicts
  import opened Regex
  import opened Values
  import opened Base

  // -----------------------------------------------------------------------
  // The neighbour grammar

  /** `(router)?\s*(?P<nud>\S+)`: the optional router mark and the state. */
  const NudPart: Pat :=
    Cons(Opt(Cons(Lit("router"), End)), Cons(Rep(Space, Star, None), Cons(Rep(NonSpace, Plus, Some("nud")), End)))

  /** `\s*(?P<nud>\S+)`: the state once the router mark is passed. */
  const StatePart: Pat := Cons(Rep(Space, Star, None), Cons(Rep(NonSpace, Plus, Some("nud")), End))

  /** `(dev (?P<ifname>\S+)\s+)?(lladdr (?P<ifaddr>[0-9a-f.:]+)\s+)?` and the state. */
  const NeighborRest: Pat :=
    Cons(KeywordGroup("dev", "ifname", NonSpace, Plus), Cons(KeywordGroup("lladdr", "ifaddr", AddrChar, Plus), NudPart))

  /** `(?P<ipaddr>[0-9a-f.:]+) ` and the rest. */
  const NeighborPattern: Pat := Cons(Rep(AddrChar, Plus, Some("ipaddr")), Cons(Lit(" "), NeighborRest))

  const NeighborGroups: seq<string> := ["ipaddr", "ifname", "ifaddr", "nud"]

  /** ipaddr is an IPAddress and ifaddr an EUI; ifname and nud stay text. */
  const NeighborCasts: map<string, Cast> := map["ipaddr" := AddressCast, "ifaddr" := EuiCast]

  /** The NUD states that have an attribute of their own. */
  const ValidNuds: set<string> := {"REACHABLE", "STALE", "PERMANENT", "FAILED"}

  /** The keyword order of every command that changes a neighbour. */
  const NeighborOrder: seq<string> := ["lladdr", "nud", "proxy", "dev"]

  const NeighborSchema: Schema := Schema("Neighbor", NeighborPattern, NeighborCasts)

  lemma NeighborPatternGroups()
    ensures Names(NeighborPattern) == NeighborGroups
    ensures NoDuplicates(NeighborGroups)
    ensures WellFormed(NeighborSchema)
  {
    assert Names(NudPart) == ["nud"];
  }

  lemma NeighborPatternRequired()
    ensures Required(NeighborPattern) == ["ipaddr", "nud"]
  {
    assert Required(NudPart) == ["nud"];
  }

  /** The state is captured by a run of non-blanks. */
  lemma NeighborRestClassed()
    ensures Classed(NeighborRest, map["nud" := NonSpace])
  {
  }

  /**
   * `[0-9a-f.:]+ ` at the start of the line, and something other than
   * blanks after it.
   */
  predicate NeighborHead(line: string) {
    var n := Run(line, 0, AddrChar, Plus);
    1 <= n && n < |line| && line[n] == ' ' && n + 1 + Run(line, n + 1, Space, Star) < |line|
  }

  /**
   * A line is a neighbour line exactly when it starts with an address, a
   * blank, and then has a non-blank somewhere: the device, the link-layer
   * address and the router mark are optional, and the state is the first
   * word after them.
   */
  lemma NeighborMatches(line: string)
    ensures Match(NeighborPattern, line, 0, map[]).Some? <==> NeighborHead(line)
  {
    if NeighborHead(line) {
      NeighborFound(line);
    }
    if Match(NeighborPattern, line, 0, map[]).Some? {
      NeighborNeedsHead(line);
    }
  }

  lemma NeighborFound(line: string)
    requires NeighborHead(line)
    ensures Match(NeighborPattern, line, 0, map[]).Some?
  {
    var n := Run(line, 0, AddrChar, Plus);
    var env := Bind(map[], Some("ipaddr"), 0, n);
    StateFound(line, n + 1, env);
    SkipOptionals(DevBody, LladdrBody, Cons(Lit("router"), End), StatePart, line, n + 1, env);
    RestParts();
    RunThenBlank(AddrChar, Some("ipaddr"), NeighborRest, line, n);
  }

  /** `dev (?P<ifname>\S+)\s+` and `lladdr (?P<ifaddr>[0-9a-f.:]+)\s+`. */
  const DevBody: Pat := Cons(Lit("dev "), Cons(Rep(NonSpace, Plus, Some("ifname")), Cons(Rep(Space, Plus, None), End)))
  const LladdrBody: Pat := Cons(Lit("lladdr "), Cons(Rep(AddrChar, Plus, Some("ifaddr")), Cons(Rep(Space, Plus, None), End)))

  lemma RestParts()
    ensures NeighborRest == Cons(Opt(DevBody), Cons(Opt(LladdrBody), Cons(Opt(Cons(Lit("router"), End)), StatePart)))
  {
    assert "dev" + " " == "dev ";
    assert "lladdr" + " " == "lladdr ";
  }

  /** Three groups that can be skipped match wherever what follows them matches. */
  lemma SkipOptionals(x: Pat, y: Pat, z: Pat, rest: Pat, s: string, pos: nat, env: Env)
    requires pos <= |s| && SpansIn(env, |s|)
    requires Match(rest, s, pos, env).Some?
    ensures Match(Cons(Opt(x), Cons(Opt(y), Cons(Opt(z), rest))), s, pos, env).Some?
  {
    SkipOptional(z, rest, s, pos, env);
    SkipOptional(y, Cons(Opt(z), rest), s, pos, env);
    SkipOptional(x, Cons(Opt(y), Cons(Opt(z), rest)), s, pos, env);
  }

  /** A group that can be skipped matches wherever what follows it matches. */
  lemma SkipOptional(inner: Pat, rest: Pat, s: string, pos: nat, env: Env)
    requires pos <= |s| && SpansIn(env, |s|)
    requires Match(rest, s, pos, env).Some?
    ensures Match(Cons(Opt(inner), rest), s, pos, env).Some?
  {
    assert Append(End, rest) == rest;
  }

  /** Blanks, then a non-blank: the state matches. */
  lemma StateFound(line: string, pos: nat, env: Env)
    requires pos <= |line| && SpansIn(env, |line|)
    requires pos + Run(line, pos, Space, Star) < |line|
    ensures Match(StatePart, line, pos, env).Some?
  {
    var m := Run(line, pos, Space, Star);
    assert Run(line, pos + m, NonSpace, Plus) >= 1;
    RepFinds(NonSpace, Plus, Some("nud"), End, line, pos + m, env, 1);
    assert Bind(env, None, pos, pos + m) == env;
    RepFinds(Space, Star, None, Cons(Rep(NonSpace, Plus, Some("nud")), End), line, pos, env, m);
  }

  lemma NeighborNeedsHead(line: string)
    requires Match(NeighborPattern, line, 0, map[]).Some?
    ensures NeighborHead(line)
  {
    var n := AddressNeeded(NeighborRest, line);
    StateAfter(line, n + 1, Bind(map[], Some("ipaddr"), 0, n));
  }

  /**
   * A match of the address, a blank and a rest: the address is the whole
   * run of address characters, and the rest matches after the blank.
   */
  lemma AddressNeeded(rest: Pat, line: string) returns (n: nat)
    requires Match(Cons(Rep(AddrChar, Plus, Some("ipaddr")), Cons(Lit(" "), rest)), line, 0, map[]).Some?
    ensures n == Run(line, 0, AddrChar, Plus) && 1 <= n < |line| && line[n] == ' '
    ensures Match(rest, line, n + 1, Bind(map[], Some("ipaddr"), 0, n)).Some?
  {
    n := RunNeeded(AddrChar, Some("ipaddr"), Cons(Lit(" "), rest), line);
  }

  /** A leading run of a class without the blank, then a blank: the run is taken whole. */
  lemma RunNeeded(k: CharClass, cap: Option<string>, tail: Pat, line: string) returns (n: nat)
    requires !InClass(' ', k) && tail.Cons? && tail.head == Lit(" ")
    requires Match(Cons(Rep(k, Plus, cap), tail), line, 0, map[]).Some?
    ensures n == Run(line, 0, k, Plus) && 1 <= n < |line| && line[n] == ' '
    ensures Match(tail.tail, line, n + 1, Bind(map[], cap, 0, n)).Some?
  {
    n := Run(line, 0, k, Plus);
    var j := RepStep(k, Plus, cap, tail, line, 0, map[]);
    RunBlank(k, cap, tail.tail, line, j);
  }

  lemma RunBlank(k: CharClass, cap: Option<string>, rest: Pat, line: string, j: nat)
    requires !InClass(' ', k) && 1 <= j <= Run(line, 0, k, Plus)
    requires Match(Cons(Lit(" "), rest), line, j, Bind(map[], cap, 0, j)).Some?
    ensures j == Run(line, 0, k, Plus) && j < |line| && line[j] == ' '
    ensures Match(rest, line, j + 1, Bind(map[], cap, 0, j)).Some?
  {
    BlankNeeded(rest, line, j, Bind(map[], cap, 0, j));
    RunEndsAtBlank(line, k, j);
  }

  /** A blank inside the run of a class without blanks can only be where the run ends. */
  lemma RunEndsAtBlank(line: string, k: CharClass, j: nat)
    requires !InClass(' ', k) && j <= Run(line, 0, k, Plus) && j < |line| && line[j] == ' '
    ensures j == Run(line, 0, k, Plus)
  {
    assert !InClass(line[j], k);
  }

  /** A blank the pattern asks for at pos is there, and the rest matches after it. */
  lemma BlankNeeded(rest: Pat, s: string, pos: nat, env: Env)
    requires pos <= |s| && SpansIn(env, |s|) && Match(Cons(Lit(" "), rest), s, pos, env).Some?
    ensures pos < |s| && s[pos] == ' ' && Match(rest, s, pos + 1, env).Some?
  {
    assert LitAt(s, pos, " ");
  }

  /**
   * Wherever the rest of the pattern matches, the state it captures is a
   * non-blank after the position it started from.
   */
  lemma StateAfter(line: string, pos: nat, env: Env)
    requires pos <= |line| && SpansIn(env, |line|) && "nud" !in env
    requires Match(NeighborRest, line, pos, env).Some?
    ensures pos + Run(line, pos, Space, Star) < |line|
  {
    NeighborRestClassed();
    NeighborRestRequired();
    NonBlankAfter(NeighborRest, "nud", line, pos, env);
  }

  lemma NeighborRestRequired()
    ensures "nud" in Required(NeighborRest)
  {
    assert Required(NudPart) == ["nud"];
  }

  /**
   * A group a pattern always captures with a run of non-blanks, matched
   * from pos: a non-blank follows the blanks at pos.
   */
  lemma NonBlankAfter(p: Pat, name: string, line: string, pos: nat, env: Env)
    requires pos <= |line| && SpansIn(env, |line|) && name !in env
    requires name in Required(p) && Classed(p, map[name := NonSpace])
    requires Match(p, line, pos, env).Some?
    ensures pos + Run(line, pos, Space, Star) < |line|
  {
    MatchBindsRequired(p, line, pos, env);
    MatchShape(p, line, pos, env);
    MatchFits(p, line, pos, env, map[name := NonSpace]);
    var env' := Match(p, line, pos, env).value.0;
    var a := env'[name].0;
    assert pos <= a < |line| && !IsSpace(line[a]);
  }

  /**
   * Parsing a neighbour line: it raises the no-match error exactly when the
   * line does not have the shape NeighborHead describes. The only casts
   * that can fail are those of the two addresses.
   */
  lemma NeighborFromString(line: string, lib: NetLib)
    ensures FromString(NeighborSchema, line, lib).Err? && FromString(NeighborSchema, line, lib).error.NoMatch? <==>
      !NeighborHead(line)
    ensures FromString(NeighborSchema, line, lib).Err? && !FromString(NeighborSchema, line, lib).error.NoMatch? ==>
      && FromString(NeighborSchema, line, lib).error.CastFailure?
      && FromString(NeighborSchema, line, lib).error.key in {"ipaddr", "ifaddr"}
  {
    NeighborMatches(line);
    if FromString(NeighborSchema, line, lib).Err? && Match(NeighborPattern, line, 0, map[]).Some? {
      NeighborPatternGroups();
      MatchedFailure(NeighborSchema, line, lib, map[]);
    }
  }

  /** The attributes of a parsed neighbour, by the kind of value each holds. */
  lemma NeighborFields(line: string, lib: NetLib, n: string)
    requires FromString(NeighborSchema, line, lib).Ok? && n in NeighborGroups
    ensures Lookup(FromString(NeighborSchema, line, lib).value.fields, n).Some?
    ensures var v := Lookup(FromString(NeighborSchema, line, lib).value.fields, n).value;
      && (n == "ipaddr" ==> v.Address?)
      && (n == "nud" ==> v.Text?)
      && (n == "ifname" ==> v == Null || v.Text?)
      && (n == "ifaddr" ==> v == Null || v.Mac?)
  {
    NeighborPatternGroups();
    NeighborPatternRequired();
    FieldValue(NeighborSchema, line, lib, n);
  }

  /**
   * A line made of an address (a run of n address characters), a blank
   * and a state word that does not start like `dev`, `lladdr` or
   * `router`: the device and the link-layer address take no part, and the
   * state is the whole word.
   */
  lemma NeighborBare(line: string, n: nat)
    requires n == Run(line, 0, AddrChar, Plus) && 1 <= n && n + 1 < |line| && line[n] == ' '
    requires Run(line, n + 1, Space, Star) == 0 && Run(line, n + 1, NonSpace, Plus) == |line| - (n + 1)
    requires line[n + 1] !in {'d', 'l', 'r'}
    ensures Match(NeighborPattern, line, 0, map[]).Some?
    ensures var env := Match(NeighborPattern, line, 0, map[]).value.0;
      && "ifname" !in env && "ifaddr" !in env && "nud" in env
      && env["nud"] == (n + 1, |line|)
  {
    BareState(line, n + 1, Bind(map[], Some("ipaddr"), 0, n));
    RunThenBlank(AddrChar, Some("ipaddr"), NeighborRest, line, n);
  }

  /** A state word alone after the blank is the whole rest of the line. */
  lemma BareState(line: string, pos: nat, env: Env)
    requires pos < |line| && SpansIn(env, |line|) && line[pos] !in {'d', 'l', 'r'}
    requires Run(line, pos, Space, Star) == 0 && Run(line, pos, NonSpace, Plus) == |line| - pos
    ensures Match(NeighborRest, line, pos, env) == Some((env["nud" := (pos, |line|)], |line|))
  {
    BareRest(line, pos, env);
    StateWhole(line, pos, env);
  }

  /** After the blank, a word that opens no optional group is the state. */
  lemma BareRest(line: string, pos: nat, env: Env)
    requires pos < |line| && SpansIn(env, |line|) && line[pos] !in {'d', 'l', 'r'}
    ensures Match(NeighborRest, line, pos, env) == Match(StatePart, line, pos, env)
  {
    RestParts();
    SkipLits(DevBody, LladdrBody, Cons(Lit("router"), End), StatePart, line, pos, env);
  }

  /** No blanks, then non-blanks to the end of the line: the state is all of them. */
  lemma StateWhole(line: string, pos: nat, env: Env)
    requires pos < |line| && SpansIn(env, |line|)
    requires Run(line, pos, Space, Star) == 0 && Run(line, pos, NonSpace, Plus) == |line| - pos
    ensures Match(StatePart, line, pos, env) == Some((env["nud" := (pos, |line|)], |line|))
  {
    var tail := Cons(Rep(NonSpace, Plus, Some("nud")), End);
    RepTakesAll(NonSpace, Some("nud"), End, line, pos, |line| - pos, env);
    var j := RepStep(Space, Star, None, tail, line, pos, env);
    assert Bind(env, None, pos, pos) == env;
  }

  /**
   * A leading run of class k, captured under cap and followed by a blank:
   * the run is taken whole when the rest matches after the blank.
   */
  lemma RunThenBlank(k: CharClass, cap: Option<string>, rest: Pat, line: string, n: nat)
    requires n == Run(line, 0, k, Plus) && 1 <= n < |line| && line[n] == ' '
    requires Match(rest, line, n + 1, Bind(map[], cap, 0, n)).Some?
    ensures Match(Cons(Rep(k, Plus, cap), Cons(Lit(" "), rest)), line, 0, map[]) ==
      Match(rest, line, n + 1, Bind(map[], cap, 0, n))
  {
    var env := Bind(map[], cap, 0, n);
    BindSpans(map[], cap, 0, n, |line|);
    BlankStep(rest, line, n, env);
    RepTakesAll(k, cap, Cons(Lit(" "), rest), line, 0, n, map[]);
  }

  /** A single blank at n is consumed by the literal `" "`. */
  lemma BlankStep(rest: Pat, line: string, n: nat, env: Env)
    requires n < |line| && line[n] == ' ' && SpansIn(env, |line|)
    ensures Match(Cons(Lit(" "), rest), line, n, env) == Match(rest, line, n + 1, env)
  {
    assert line[n..n + 1] == " ";
    LitStep(" ", rest, line, n, env);
  }

  /**
   * Three optional groups, each opening with a literal whose first
   * character is not the one at pos, are all skipped.
   */
  lemma SkipLits(x: Pat, y: Pat, z: Pat, rest: Pat, s: string, pos: nat, env: Env)
    requires pos < |s| && SpansIn(env, |s|)
    requires x.Cons? && x.head.Lit? && x.head.text != [] && s[pos] != x.head.text[0]
    requires y.Cons? && y.head.Lit? && y.head.text != [] && s[pos] != y.head.text[0]
    requires z.Cons? && z.head.Lit? && z.head.text != [] && s[pos] != z.head.text[0]
    ensures Match(Cons(Opt(x), Cons(Opt(y), Cons(Opt(z), rest))), s, pos, env) == Match(rest, s, pos, env)
  {
    SkipLit(z.head.text, z.tail, rest, s, pos, env);
    SkipLit(y.head.text, y.tail, Cons(Opt(z), rest), s, pos, env);
    SkipLit(x.head.text, x.tail, Cons(Opt(y), Cons(Opt(z), rest)), s, pos, env);
  }

  /** An optional group whose keyword does not start at pos is skipped. */
  lemma SkipLit(t: string, inner: Pat, rest: Pat, s: string, pos: nat, env: Env)
    requires pos < |s| && SpansIn(env, |s|) && t != [] && s[pos] != t[0]
    ensures Match(Cons(Opt(Cons(Lit(t), inner)), rest), s, pos, env) == Match(rest, s, pos, env)
  {
    assert Append(End, rest) == rest;
    assert Append(Cons(Lit(t), inner), rest) == Cons(Lit(t), Append(inner, rest));
  }

  /** ... and once construction succeeds, the two optional fields are None. */
  lemma NeighborBareFields(line: string, n: nat, lib: NetLib)
    requires n == Run(line, 0, AddrChar, Plus) && 1 <= n && n + 1 < |line| && line[n] == ' '
    requires Run(line, n + 1, Space, Star) == 0 && Run(line, n + 1, NonSpace, Plus) == |line| - (n + 1)
    requires line[n + 1] !in {'d', 'l', 'r'}
    requires FromString(NeighborSchema, line, lib).Ok?
    ensures var fields := FromString(NeighborSchema, line, lib).value.fields;
      && Lookup(fields, "ifname") == Some(Null)
      && Lookup(fields, "ifaddr") == Some(Null)
      && Lookup(fields, "nud") == Some(Text(Captured(line, (n + 1, |line|))))
  {
    NeighborBare(line, n);
    NeighborPatternGroups();
    BareLookups(NeighborSchema, line, lib);
  }

  /** The attributes of a match in which only the state of the three took part. */
  lemma BareLookups(sc: Schema, line: string, lib: NetLib)
    requires WellFormed(sc) && FromString(sc, line, lib).Ok?
    requires "ifname" in Names(sc.pattern) && "ifaddr" in Names(sc.pattern) && "nud" in Names(sc.pattern)
    requires "nud" !in sc.casts
    requires Match(sc.pattern, line, 0, map[]).Some?
    requires var env := Match(sc.pattern, line, 0, map[]).value.0;
      "ifname" !in env && "ifaddr" !in env && "nud" in env && env["nud"].0 <= env["nud"].1 <= |line|
    ensures var env := Match(sc.pattern, line, 0, map[]).value.0;
      var fields := FromString(sc, line, lib).value.fields;
      && Lookup(fields, "ifname") == Some(Null)
      && Lookup(fields, "ifaddr") == Some(Null)
      && Lookup(fields, "nud") == Some(Text(Captured(line, env["nud"])))
  {
    UncastLookup(sc, line, lib, "ifname");
    UncastLookup(sc, line, lib, "ifaddr");
    UncastLookup(sc, line, lib, "nud");
  }

  /**
   * The attribute of a group that took no part is None, and that of a
   * group the table does not cast is its text.
   */
  lemma UncastLookup(sc: Schema, line: string, lib: NetLib, n: string)
    requires WellFormed(sc) && FromString(sc, line, lib).Ok? && n in Names(sc.pattern)
    ensures Match(sc.pattern, line, 0, map[]).Some?
    ensures var env := Match(sc.pattern, line, 0, map[]).value.0;
      && SpansIn(env, |line|)
      && (n !in env ==> Lookup(FromString(sc, line, lib).value.fields, n) == Some(Null))
      && (n in env && n !in sc.casts ==>
            Lookup(FromString(sc, line, lib).value.fields, n) == Some(Text(Captured(line, env[n]))))
  {
    FromStringLookup(sc, line, lib, n);
  }

  // -----------------------------------------------------------------------
  // The NUD-state attributes

  /**
   * Reading attribute `name` of a neighbour. A stored attribute is found
   * first; only when there is none does `Neighbor.__getattr__` run: a name
   * whose upper-case form is a valid state asks whether it equals the
   * stored state. Every other name goes to the base class's
   * `__getattr__`, which does not exist, so reading it raises
   * AttributeError for `__getattr__`; a missing state ends the same way.
   */
  function NeighborAttr(rec: Record, name: string): (r: Result<Value, Error>)
    ensures Lookup(rec.fields, name).Some? ==> r == Ok(Lookup(rec.fields, name).value)
    ensures r.Err? ==> r == Err(AttributeError("__getattr__"))
  {
    if Lookup(rec.fields, name).Some? then Ok(Lookup(rec.fields, name).value)
    else if Upper(name) in ValidNuds then
      match Lookup(rec.fields, "nud")
      case Some(v) => Ok(Bool(Text(Upper(name)) == v))
      case None => Err(AttributeError("__getattr__"))
    else Err(AttributeError("__getattr__"))
  }

  /**
   * For a name that is not stored and whose upper-case form is a valid
   * state, the attribute is true exactly when the stored state is that
   * upper-case word.
   */
  lemma NudAttr(rec: Record, name: string)
    requires Lookup(rec.fields, name).None? && Upper(name) in ValidNuds && Lookup(rec.fields, "nud").Some?
    ensures NeighborAttr(rec, name).Ok? && NeighborAttr(rec, name).value.Bool?
    ensures NeighborAttr(rec, name).value.truth <==> Lookup(rec.fields, "nud").value == Text(Upper(name))
  {
  }

  /** Any other name that is not stored raises AttributeError. */
  lemma NudOther(rec: Record, name: string)
    requires Lookup(rec.fields, name).None? && Upper(name) !in ValidNuds
    ensures NeighborAttr(rec, name) == Err(AttributeError("__getattr__"))
  {
  }

  /**
   * The state names are read case-insensitively: two names with the same
   * upper-case form, neither stored, read alike.
   */
  lemma NudCaseless(rec: Record, a: string, b: string)
    requires Lookup(rec.fields, a).None? && Lookup(rec.fields, b).None? && Upper(a) == Upper(b)
    ensures NeighborAttr(rec, a) == NeighborAttr(rec, b)
  {
  }

  /**
   * A stored state that is not upper case answers false for every state
   * name: the upper-cased name is compared as it is.
   */
  lemma LowerStateNeverHolds(rec: Record, name: string, state: string)
    requires Lookup(rec.fields, name).None? && Upper(name) in ValidNuds
    requires Lookup(rec.fields, "nud") == Some(Text(state)) && Upper(state) != state
    ensures NeighborAttr(rec, name) == Ok(Bool(false))
  {
    UpperTwice(name);
  }

  /** Upper-casing twice is upper-casing once. */
  lemma UpperTwice(s: string)
    ensures Upper(Upper(s)) == Upper(s)
  {
    assert forall i :: 0 <= i < |s| ==> UpperChar(UpperChar(s[i])) == UpperChar(s[i]);
  }

  /** A neighbour in state REACHABLE is reachable and not stale. */
  lemma ReachableAttrs(rec: Record)
    requires Keys(rec.fields) == NeighborGroups && Lookup(rec.fields, "nud") == Some(Text("REACHABLE"))
    ensures NeighborAttr(rec, "reachable") == Ok(Bool(true))
    ensures NeighborAttr(rec, "stale") == Ok(Bool(false))
  {
    LookupAbsent(rec.fields, "reachable");
    LookupAbsent(rec.fields, "stale");
    ReachableUpper();
    StaleUpper();
    NudNamed(rec, "reachable", "REACHABLE");
    NudNamed(rec, "stale", "STALE");
    assert "REACHABLE"[0] != "STALE"[0];
  }

  /** `delay` is a state `ip` knows but not one with an attribute. */
  lemma DelayRaises(rec: Record)
    requires Keys(rec.fields) == NeighborGroups
    ensures NeighborAttr(rec, "delay") == Err(AttributeError("__getattr__"))
  {
    LookupAbsent(rec.fields, "delay");
    DelayUpper();
    NudOther(rec, "delay");
  }

  lemma NudNamed(rec: Record, name: string, state: string)
    requires Lookup(rec.fields, name).None? && Upper(name) == state && state in ValidNuds
    requires Lookup(rec.fields, "nud").Some?
    ensures NeighborAttr(rec, name) == Ok(Bool(Lookup(rec.fields, "nud").value == Text(state)))
  {
  }

  lemma ReachableUpper()
    ensures Upper("reachable") == "REACHABLE"
  {
    UpperWord("reachable", "REACHABLE");
  }

  lemma StaleUpper()
    ensures Upper("stale") == "STALE"
  {
    UpperWord("stale", "STALE");
  }

  lemma DelayUpper()
    ensures Upper("delay") == "DELAY" && "DELAY" !in ValidNuds
  {
    UpperWord("delay", "DELAY");
  }

  /** t is s upper-cased when it is so character by character. */
  lemma UpperWord(s: string, t: string)
    requires |s| == |t| && forall i :: 0 <= i < |s| ==> t[i] == UpperChar(s[i])
    ensures Upper(s) == t
  {
  }

  // -----------------------------------------------------------------------
  // Querying and commands

  /** The lines of one family's `neigh show`, or None where the command raised. */
  function Output(lines: Option<seq<string>>): seq<string> {
    match lines
    case None => []
    case Some(ls) => ls
  }

  /**
   * `_get`: the IPv4 lines, then the IPv6 lines, for the same arguments;
   * a family whose command raises contributes nothing.
   */
  function NeighborLines(v4: seq<Arg> -> Option<seq<string>>, v6: seq<Arg> -> Option<seq<string>>): seq<Arg> -> seq<string> {
    args => Output(v4(args)) + Output(v6(args))
  }

  /**
   * A query returns the IPv4 neighbours before the IPv6 ones, each family
   * in the order the tool printed it; the first line that fails ends it.
   */
  lemma NeighborGetOrder(lib: NetLib, v4: seq<Arg> -> Option<seq<string>>, v6: seq<Arg> -> Option<seq<string>>,
                         args: seq<Arg>, kwargs: Dict<Arg>)
    ensures var argv := ToolArgs(args, kwargs);
      var filt := Lookup(kwargs, "filt");
      Get(NeighborSchema, lib, NeighborLines(v4, v6), args, kwargs) ==
        Chain(Collect(NeighborSchema, lib, Output(v4(argv)), filt), Collect(NeighborSchema, lib, Output(v6(argv)), filt))
  {
    var argv := ToolArgs(args, kwargs);
    CollectAppend(NeighborSchema, lib, Output(v4(argv)), Output(v6(argv)), Lookup(kwargs, "filt"));
  }

  /** When the IPv4 command raises, a query returns what the IPv6 lines give. */
  lemma NeighborFamilyFails(lib: NetLib, v4: seq<Arg> -> Option<seq<string>>, v6: seq<Arg> -> Option<seq<string>>,
                            args: seq<Arg>, kwargs: Dict<Arg>)
    requires v4(ToolArgs(args, kwargs)).None?
    ensures Get(NeighborSchema, lib, NeighborLines(v4, v6), args, kwargs) ==
      Collect(NeighborSchema, lib, Output(v6(ToolArgs(args, kwargs))), Lookup(kwargs, "filt"))
  {
    var argv := ToolArgs(args, kwargs);
    NeighborGetOrder(lib, v4, v6, args, kwargs);
    assert Collect(NeighborSchema, lib, Output(v4(argv)), Lookup(kwargs, "filt")) == Ok([]);
    var y := Collect(NeighborSchema, lib, Output(v6(argv)), Lookup(kwargs, "filt"));
    if y.Ok? {
      assert [] + y.value == y.value;
    }
  }

  /** `add`: clear the cache, then give `neigh add` with the neighbour order. */
  method Add(cache: Cache) returns (c: Command)
    modifies cache
    ensures cache.entries == map[]
    ensures c == Command(["add"], NeighborOrder)
  {
    cache.Clear();
    c := Command(["add"], NeighborOrder);
  }

  /** `replace`: clear the cache, then give `neigh replace`. */
  method Replace(cache: Cache) returns (c: Command)
    modifies cache
    ensures cache.entries == map[]
    ensures c == Command(["replace"], NeighborOrder)
  {
    cache.Clear();
    c := Command(["replace"], NeighborOrder);
  }

  /** `change`: clear the cache, then give `neigh change`. */
  method Change(cache: Cache) returns (c: Command)
    modifies cache
    ensures cache.entries == map[]
    ensures c == Command(["change"], NeighborOrder)
  {
    cache.Clear();
    c := Command(["change"], NeighborOrder);
  }

  /** `delete`: clear the cache, then give `neigh del`. */
  method Delete(cache: Cache) returns (c: Command)
    modifies cache
    ensures cache.entries == map[]
    ensures c == Command(["del"], NeighborOrder)
  {
    cache.Clear();
    c := Command(["del"], NeighborOrder);
  }
}
