/**
 * Routes, as `ip route show` prints them (ipyroute/route.py): the route and
 * nexthop line grammars and cast tables, `construct` (nexthop extraction
 * and the `default` network), the nexthop token list `add` and `replace`
 * pass to the tool, the rewriting of their keyword arguments, and the
 * route hash.
 */
module Route {
  import opened Common
  import opened Dicts
  import opened Regex
  import opened Values
  import opened Base

  // -----------------------------------------------------------------------
  // Nexthops

  /** `nexthop via <via>\s+dev <dev> weight <weight>` */
  const NexthopPattern: Pat :=
    Cons(Lit("nexthop via "), Cons(Rep(NonSpace, Plus, Some("via")), Cons(Rep(Space, Plus, None),
    Cons(Lit("dev "), Cons(Rep(NonSpace, Plus, Some("dev")), Cons(Lit(" "),
    Cons(Lit("weight "), Cons(Rep(Digit, Plus, Some("weight")), End))))))))

  const NexthopGroups: seq<string> := ["via", "dev", "weight"]

  /** via is an IPAddress, dev stays text, weight is an int. */
  const NexthopCasts: map<string, Cast> := map["via" := AddressCast, "dev" := TextCast, "weight" := IntCast]

  const NexthopDigits: map<string, CharClass> := map["weight" := Digit]

  lemma NexthopPatternGroups()
    ensures Names(NexthopPattern) == NexthopGroups == Required(NexthopPattern)
    ensures NoDuplicates(NexthopGroups)
    ensures Classed(NexthopPattern, NexthopDigits)
  {
  }

  /** `Nexthop(**m.groupdict())` for one match m of the nexthop pattern. */
  function NexthopAt(line: string, f: Found, lib: NetLib): Result<Record, Error>
    requires SpansIn(f.env, |line|)
  {
    Construct("Nexthop", GroupArgs(NexthopGroups, line, f.env), NexthopCasts, lib)
  }

  /**
   * A nexthop found in a line binds all three groups; building it fails
   * exactly when the via text is no IP address, and otherwise gives via as
   * that address, dev as the captured text and weight as the int the
   * captured digits spell.
   */
  lemma NexthopFields(line: string, f: Found, lib: NetLib)
    requires f.start <= |line| && Match(NexthopPattern, line, f.start, map[]) == Some((f.env, f.end))
    ensures SpansIn(f.env, |line|) && "via" in f.env && "dev" in f.env && "weight" in f.env
    ensures var via := Captured(line, f.env["via"]);
      NexthopAt(line, f, lib).Ok? <==> lib.address(via).Some?
    ensures NexthopAt(line, f, lib).Ok? ==>
      var fields := NexthopAt(line, f, lib).value.fields;
      && NexthopAt(line, f, lib).value.kind == "Nexthop"
      && Keys(fields) == NexthopGroups
      && Lookup(fields, "via") == Some(Address(lib.address(Captured(line, f.env["via"])).value))
      && Lookup(fields, "dev") == Some(Text(Captured(line, f.env["dev"])))
      && ParseInt(Captured(line, f.env["weight"])).Some?
      && Lookup(fields, "weight") == Some(Int(ParseInt(Captured(line, f.env["weight"])).value))
  {
    var via, dev, weight := NexthopGroupArgs(line, f);
    var kw := [("via", Text(via)), ("dev", Text(dev)), ("weight", Text(weight))];
    assert NexthopAt(line, f, lib) == Construct("Nexthop", kw, NexthopCasts, lib);
    NexthopConstruct(via, dev, weight, lib);
  }

  /** The keyword arguments a nexthop match gives: three captured texts, the weight all digits. */
  lemma NexthopGroupArgs(line: string, f: Found) returns (via: string, dev: string, weight: string)
    requires f.start <= |line| && Match(NexthopPattern, line, f.start, map[]) == Some((f.env, f.end))
    ensures SpansIn(f.env, |line|) && "via" in f.env && "dev" in f.env && "weight" in f.env
    ensures via == Captured(line, f.env["via"]) && dev == Captured(line, f.env["dev"]) && weight == Captured(line, f.env["weight"])
    ensures GroupArgs(NexthopGroups, line, f.env) == [("via", Text(via)), ("dev", Text(dev)), ("weight", Text(weight))]
    ensures weight != [] && AllDigits(weight)
  {
    NexthopBinds(line, f);
    via := Captured(line, f.env["via"]);
    dev := Captured(line, f.env["dev"]);
    weight := Captured(line, f.env["weight"]);
    NexthopWeightDigits(line, f);
    ThreeGroupArgs(line, f.env);
  }

  /** A nexthop match binds all three groups inside the line. */
  lemma NexthopBinds(line: string, f: Found)
    requires f.start <= |line| && Match(NexthopPattern, line, f.start, map[]) == Some((f.env, f.end))
    ensures SpansIn(f.env, |line|) && "via" in f.env && "dev" in f.env && "weight" in f.env
  {
    NexthopPatternGroups();
    MatchInBounds(NexthopPattern, line, f.start, map[]);
    MatchBindsRequired(NexthopPattern, line, f.start, map[]);
  }

  /** The weight a nexthop match captures is a non-empty run of digits. */
  lemma NexthopWeightDigits(line: string, f: Found)
    requires f.start <= |line| && Match(NexthopPattern, line, f.start, map[]) == Some((f.env, f.end))
    requires SpansIn(f.env, |line|) && "weight" in f.env
    ensures Captured(line, f.env["weight"]) != [] && AllDigits(Captured(line, f.env["weight"]))
  {
    NexthopPatternGroups();
    MatchFits(NexthopPattern, line, f.start, map[], NexthopDigits);
    var weight := Captured(line, f.env["weight"]);
    assert forall i :: 0 <= i < |weight| ==> weight[i] == line[f.env["weight"].0 + i];
  }

  /** The group dictionary of via, dev and weight when all three took part. */
  lemma ThreeGroupArgs(line: string, env: Env)
    requires SpansIn(env, |line|) && "via" in env && "dev" in env && "weight" in env
    ensures GroupArgs(NexthopGroups, line, env) ==
      [("via", Text(Captured(line, env["via"]))), ("dev", Text(Captured(line, env["dev"]))), ("weight", Text(Captured(line, env["weight"])))]
  {
  }

  /** Building a Nexthop from three texts, the weight all digits. */
  lemma NexthopConstruct(via: string, dev: string, weight: string, lib: NetLib)
    requires weight != [] && AllDigits(weight)
    ensures ParseInt(weight).Some?
    ensures var r := Construct("Nexthop", [("via", Text(via)), ("dev", Text(dev)), ("weight", Text(weight))], NexthopCasts, lib);
      && (r.Ok? <==> lib.address(via).Some?)
      && (r.Ok? ==>
            && r.value.kind == "Nexthop"
            && Keys(r.value.fields) == NexthopGroups
            && Lookup(r.value.fields, "via") == Some(Address(lib.address(via).value))
            && Lookup(r.value.fields, "dev") == Some(Text(dev))
            && Lookup(r.value.fields, "weight") == Some(Int(ParseInt(weight).value)))
  {
    NexthopBuilds(via, dev, weight, lib);
    var r := Construct("Nexthop", [("via", Text(via)), ("dev", Text(dev)), ("weight", Text(weight))], NexthopCasts, lib);
    if r.Ok? {
      NexthopKindKeys(via, dev, weight, lib);
      NexthopVia(via, dev, weight, lib);
      NexthopDev(via, dev, weight, lib);
      NexthopWeight(via, dev, weight, lib);
    }
  }

  lemma NexthopBuilds(via: string, dev: string, weight: string, lib: NetLib)
    requires weight != [] && AllDigits(weight)
    ensures ParseInt(weight).Some?
    ensures Construct("Nexthop", [("via", Text(via)), ("dev", Text(dev)), ("weight", Text(weight))], NexthopCasts, lib).Ok?
      <==> lib.address(via).Some?
  {
    var kw := [("via", Text(via)), ("dev", Text(dev)), ("weight", Text(weight))];
    NetCasts("via", Text(via), lib);
    assert Converted("dev", Text(dev), NexthopCasts, lib).Ok?;
    assert Converted("weight", Text(weight), NexthopCasts, lib).Ok?;
    ConstructOk("Nexthop", kw, NexthopCasts, lib);
  }

  lemma NexthopKindKeys(via: string, dev: string, weight: string, lib: NetLib)
    requires Construct("Nexthop", [("via", Text(via)), ("dev", Text(dev)), ("weight", Text(weight))], NexthopCasts, lib).Ok?
    ensures var r := Construct("Nexthop", [("via", Text(via)), ("dev", Text(dev)), ("weight", Text(weight))], NexthopCasts, lib);
      r.value.kind == "Nexthop" && Keys(r.value.fields) == NexthopGroups
  {
    var kw := [("via", Text(via)), ("dev", Text(dev)), ("weight", Text(weight))];
    assert Distinct(kw);
    ConstructFields("Nexthop", kw, NexthopCasts, lib);
  }

  lemma NexthopVia(via: string, dev: string, weight: string, lib: NetLib)
    requires weight != [] && AllDigits(weight)
    requires Construct("Nexthop", [("via", Text(via)), ("dev", Text(dev)), ("weight", Text(weight))], NexthopCasts, lib).Ok?
    ensures var r := Construct("Nexthop", [("via", Text(via)), ("dev", Text(dev)), ("weight", Text(weight))], NexthopCasts, lib);
      && lib.address(via).Some?
      && Lookup(r.value.fields, "via") == Some(Address(lib.address(via).value))
  {
    var kw := [("via", Text(via)), ("dev", Text(dev)), ("weight", Text(weight))];
    assert Distinct(kw);
    NexthopBuilds(via, dev, weight, lib);
    NetCasts("via", Text(via), lib);
    ConstructLookup("Nexthop", kw, NexthopCasts, lib, "via");
  }

  lemma NexthopDev(via: string, dev: string, weight: string, lib: NetLib)
    requires Construct("Nexthop", [("via", Text(via)), ("dev", Text(dev)), ("weight", Text(weight))], NexthopCasts, lib).Ok?
    ensures var r := Construct("Nexthop", [("via", Text(via)), ("dev", Text(dev)), ("weight", Text(weight))], NexthopCasts, lib);
      Lookup(r.value.fields, "dev") == Some(Text(dev))
  {
    var kw := [("via", Text(via)), ("dev", Text(dev)), ("weight", Text(weight))];
    assert Distinct(kw);
    LookupAt(kw, 1);
    assert Converted("dev", Text(dev), NexthopCasts, lib) == Ok(Text(dev));
    ConstructLookup("Nexthop", kw, NexthopCasts, lib, "dev");
  }

  lemma NexthopWeight(via: string, dev: string, weight: string, lib: NetLib)
    requires weight != [] && AllDigits(weight)
    requires Construct("Nexthop", [("via", Text(via)), ("dev", Text(dev)), ("weight", Text(weight))], NexthopCasts, lib).Ok?
    ensures ParseInt(weight).Some?
    ensures var r := Construct("Nexthop", [("via", Text(via)), ("dev", Text(dev)), ("weight", Text(weight))], NexthopCasts, lib);
      Lookup(r.value.fields, "weight") == Some(Int(ParseInt(weight).value))
  {
    var kw := [("via", Text(via)), ("dev", Text(dev)), ("weight", Text(weight))];
    assert Distinct(kw);
    LookupAt(kw, 2);
    assert CastValue(IntCast, "weight", Text(weight), lib).Ok?;
    assert Converted("weight", Text(weight), NexthopCasts, lib) == Ok(Int(ParseInt(weight).value));
    ConstructLookup("Nexthop", kw, NexthopCasts, lib, "weight");
  }

  /** `[Nexthop(**n.groupdict()) for n in finditer(line)]` over the matches fs. */
  function NexthopRecords(line: string, fs: seq<Found>, lib: NetLib): (r: Result<seq<Record>, Error>)
    requires forall i :: 0 <= i < |fs| ==> SpansIn(fs[i].env, |line|)
    ensures r.Ok? <==> forall i :: 0 <= i < |fs| ==> NexthopAt(line, fs[i], lib).Ok?
    ensures r.Ok? ==> |r.value| == |fs| && forall i :: 0 <= i < |fs| ==>
      NexthopAt(line, fs[i], lib).Ok? && r.value[i] == NexthopAt(line, fs[i], lib).value
  {
    if fs == [] then Ok([])
    else
      match NexthopAt(line, fs[0], lib)
      case Err(e) => Err(e)
      case Ok(nh) =>
        var rest := NexthopRecords(line, fs[1..], lib);
        RecordsCons(line, fs, lib, rest);
        match rest
        case Err(e) => Err(e)
        case Ok(nhs) => Ok([nh] + nhs)
  }

  /** The first match built, the rest built exactly when every later match builds. */
  lemma RecordsCons(line: string, fs: seq<Found>, lib: NetLib, rest: Result<seq<Record>, Error>)
    requires fs != [] && forall i :: 0 <= i < |fs| ==> SpansIn(fs[i].env, |line|)
    requires NexthopAt(line, fs[0], lib).Ok?
    requires rest.Ok? <==> forall i :: 0 <= i < |fs[1..]| ==> NexthopAt(line, fs[1..][i], lib).Ok?
    requires rest.Ok? ==> |rest.value| == |fs[1..]| && forall i :: 0 <= i < |fs[1..]| ==>
      NexthopAt(line, fs[1..][i], lib).Ok? && rest.value[i] == NexthopAt(line, fs[1..][i], lib).value
    ensures rest.Ok? <==> forall i :: 0 <= i < |fs| ==> NexthopAt(line, fs[i], lib).Ok?
    ensures rest.Ok? ==>
      var r := [NexthopAt(line, fs[0], lib).value] + rest.value;
      |r| == |fs| && forall i :: 0 <= i < |fs| ==> NexthopAt(line, fs[i], lib).Ok? && r[i] == NexthopAt(line, fs[i], lib).value
  {
    assert (forall i :: 0 <= i < |fs| ==> NexthopAt(line, fs[i], lib).Ok?) <==>
      forall i :: 0 <= i < |fs[1..]| ==> NexthopAt(line, fs[1..][i], lib).Ok? by {
      assert forall i :: 1 <= i < |fs| ==> fs[i] == fs[1..][i - 1];
    }
    if rest.Ok? {
      RecordsOkCons(line, fs, lib, rest.value);
    }
  }

  lemma RecordsOkCons(line: string, fs: seq<Found>, lib: NetLib, rest: seq<Record>)
    requires fs != [] && forall i :: 0 <= i < |fs| ==> SpansIn(fs[i].env, |line|)
    requires NexthopAt(line, fs[0], lib).Ok?
    requires |rest| == |fs[1..]| && forall i :: 0 <= i < |fs[1..]| ==>
      NexthopAt(line, fs[1..][i], lib).Ok? && rest[i] == NexthopAt(line, fs[1..][i], lib).value
    ensures var r := [NexthopAt(line, fs[0], lib).value] + rest;
      |r| == |fs| && forall i :: 0 <= i < |fs| ==> NexthopAt(line, fs[i], lib).Ok? && r[i] == NexthopAt(line, fs[i], lib).value
  {
    var r := [NexthopAt(line, fs[0], lib).value] + rest;
    forall i | 0 <= i < |fs| ensures NexthopAt(line, fs[i], lib).Ok? && r[i] == NexthopAt(line, fs[i], lib).value {
      if i > 0 {
        assert fs[i] == fs[1..][i - 1] && r[i] == rest[i - 1];
      }
    }
  }

  /** Every nexthop in the line, left to right. */
  function Nexthops(line: string, lib: NetLib): Result<seq<Record>, Error> {
    FindAllSpans(NexthopPattern, line, 0);
    NexthopRecords(line, FindAll(NexthopPattern, line, 0), lib)
  }

  /**
   * The nexthops of a line are its non-overlapping nexthop matches, in
   * the order they occur, none skipped; each is a Nexthop record of that
   * match's groups.
   */
  lemma NexthopsInOrder(line: string, lib: NetLib)
    requires Nexthops(line, lib).Ok?
    ensures var fs := FindAll(NexthopPattern, line, 0);
      && |Nexthops(line, lib).value| == |fs|
      && (forall i :: 0 <= i < |fs| - 1 ==> fs[i].end <= fs[i + 1].start)
      && (forall q: nat :: q <= |line| && Match(NexthopPattern, line, q, map[]).Some? ==>
            exists i :: 0 <= i < |fs| && Covers(fs[i], q))
      && forall i :: 0 <= i < |fs| ==>
           && Match(NexthopPattern, line, fs[i].start, map[]) == Some((fs[i].env, fs[i].end))
           && Nexthops(line, lib).value[i].kind == "Nexthop"
           && Keys(Nexthops(line, lib).value[i].fields) == NexthopGroups
  {
    var fs := FindAll(NexthopPattern, line, 0);
    forall q: nat | q <= |line| && Match(NexthopPattern, line, q, map[]).Some?
      ensures exists i :: 0 <= i < |fs| && Covers(fs[i], q)
    {
      FindAllComplete(NexthopPattern, line, 0, q);
    }
    forall i | 0 <= i < |fs|
      ensures Nexthops(line, lib).value[i].kind == "Nexthop"
      ensures Keys(Nexthops(line, lib).value[i].fields) == NexthopGroups
    {
      NexthopFields(line, fs[i], lib);
    }
  }

  // -----------------------------------------------------------------------
  // The route grammar

  /** The optional `keyword value` groups after the network, in their fixed order. */
  const RouteOptions: Pat :=
    Cons(KeywordGroup("via", "via", NonSpace, Star),
    Cons(KeywordGroup("dev", "dev", NonSpace, Star),
    Cons(KeywordGroup("proto", "proto", NonSpace, Star),
    Cons(KeywordGroup("src", "src", NonSpace, Star),
    Cons(KeywordGroup("metric", "metric", Digit, Star),
    Cons(KeywordGroup("mtu", "mtu", Digit, Star),
    Cons(KeywordGroup("advmss", "advmss", Digit, Star), End)))))))

  /** `network\s+` followed by the optional groups. */
  const RoutePattern: Pat :=
    Cons(Rep(NonSpace, Plus, Some("network")), Cons(Rep(Space, Plus, None), RouteOptions))

  const RouteGroups: seq<string> := ["network", "via", "dev", "proto", "src", "metric", "mtu", "advmss"]

  const RouteCasts: map<string, Cast> :=
    map["network" := NetworkCast, "src" := AddressCast, "metric" := IntCast, "mtu" := IntCast, "advmss" := IntCast]

  const RouteDigits: map<string, CharClass> := map["metric" := Digit, "mtu" := Digit, "advmss" := Digit]

  /**
   * A route class: its name and the zero prefix `default` stands for
   * (`anyaddr`), which the base class Route does not define.
   */
  datatype RouteClass = RouteClass(kind: string, anyaddr: Option<string>)

  const Route: RouteClass := RouteClass("Route", None)
  const Route4: RouteClass := RouteClass("Route4", Some("0.0.0.0/0"))
  const Route6: RouteClass := RouteClass("Route6", Some("::/0"))

  function RouteSchema(rc: RouteClass): Schema {
    Schema(rc.kind, RoutePattern, RouteCasts)
  }

  lemma RoutePatternGroups()
    ensures Names(RoutePattern) == RouteGroups
  {
  }

  lemma RouteGroupsUnique(rc: RouteClass)
    ensures WellFormed(RouteSchema(rc))
  {
    RoutePatternGroups();
    RouteGroupsDistinct();
  }

  lemma RouteGroupsDistinct()
    ensures NoDuplicates(RouteGroups)
  {
  }

  lemma RoutePatternRequired()
    ensures "network" in Required(RoutePattern)
  {
  }

  lemma RoutePatternClassed()
    ensures Classed(RoutePattern, RouteDigits)
  {
  }

  lemma RouteOptionsOptional()
    ensures AllOptional(RouteOptions)
  {
  }

  /**
   * A line is a route line exactly when it starts with a run of non-blank
   * characters (the network) followed by a blank; every other group is
   * optional, so nothing else can make the match fail.
   */
  lemma RouteMatches(line: string)
    ensures Match(RoutePattern, line, 0, map[]).Some? <==> 1 <= Run(line, 0, NonSpace, Plus) < |line|
  {
    RouteOptionsOptional();
    TokenThenBlank(Some("network"), RouteOptions, line);
  }

  /** A captured non-blank token, blanks, then only optional parts. */
  lemma TokenThenBlank(cap: Option<string>, opts: Pat, line: string)
    requires AllOptional(opts)
    ensures Match(Cons(Rep(NonSpace, Plus, cap), Cons(Rep(Space, Plus, None), opts)), line, 0, map[]).Some? <==>
      1 <= Run(line, 0, NonSpace, Plus) < |line|
  {
    var n := Run(line, 0, NonSpace, Plus);
    if 1 <= n < |line| {
      TokenThenBlankFound(cap, opts, line);
    } else {
      TokenThenBlankFails(cap, opts, line);
    }
  }

  lemma TokenThenBlankFound(cap: Option<string>, opts: Pat, line: string)
    requires AllOptional(opts) && 1 <= Run(line, 0, NonSpace, Plus) < |line|
    ensures Match(Cons(Rep(NonSpace, Plus, cap), Cons(Rep(Space, Plus, None), opts)), line, 0, map[]).Some?
  {
    var n := Run(line, 0, NonSpace, Plus);
    var rest := Cons(Rep(Space, Plus, None), opts);
    BlankThenOptional(opts, line, n, Bind(map[], cap, 0, n));
    GreedyFinds(rest, line, 0, map[], cap, n, 1, n);
  }

  lemma TokenThenBlankFails(cap: Option<string>, opts: Pat, line: string)
    requires !(1 <= Run(line, 0, NonSpace, Plus) < |line|)
    ensures Match(Cons(Rep(NonSpace, Plus, cap), Cons(Rep(Space, Plus, None), opts)), line, 0, map[]).None?
  {
    var n := Run(line, 0, NonSpace, Plus);
    var rest := Cons(Rep(Space, Plus, None), opts);
    var j := RepStep(NonSpace, Plus, cap, rest, line, 0, map[]);
    if n >= 1 {
      var env := Bind(map[], cap, 0, j);
      var k := RepStep(Space, Plus, None, opts, line, j, env);
      if j < n {
        assert !IsSpace(line[j]);
      }
    }
  }

  /**
   * Parsing a route line: it raises the no-match error exactly when the
   * line lacks a network and a blank; the network always becomes an
   * IPNetwork; metric, mtu and advmss are ints or None, src an IPAddress
   * or None, via, dev and proto text or None. The only casts that can
   * fail are those of the network and of src.
   */
  lemma RouteFromString(rc: RouteClass, line: string, lib: NetLib)
    ensures FromString(RouteSchema(rc), line, lib).Err? && FromString(RouteSchema(rc), line, lib).error.NoMatch? <==>
      !(1 <= Run(line, 0, NonSpace, Plus) < |line|)
    ensures FromString(RouteSchema(rc), line, lib).Err? && !FromString(RouteSchema(rc), line, lib).error.NoMatch? ==>
      && FromString(RouteSchema(rc), line, lib).error.CastFailure?
      && FromString(RouteSchema(rc), line, lib).error.key in {"network", "src"}
  {
    RouteMatches(line);
    var sc := RouteSchema(rc);
    if FromString(sc, line, lib).Err? && Match(RoutePattern, line, 0, map[]).Some? {
      RouteGroupsUnique(rc);
      RoutePatternClassed();
      MatchedFailure(sc, line, lib, RouteDigits);
      RouteCastTable();
    }
  }

  /** The attributes of a parsed route, by the kind of value each holds. */
  lemma RouteFields(rc: RouteClass, line: string, lib: NetLib, n: string)
    requires FromString(RouteSchema(rc), line, lib).Ok? && n in RouteGroups
    ensures Lookup(FromString(RouteSchema(rc), line, lib).value.fields, n).Some?
    ensures var v := Lookup(FromString(RouteSchema(rc), line, lib).value.fields, n).value;
      && (n == "network" ==> v.Network?)
      && (n == "src" ==> v == Null || v.Address?)
      && (n in {"metric", "mtu", "advmss"} ==> v == Null || (v.Int? && v.num >= 0))
      && (n in {"via", "dev", "proto"} ==> v == Null || v.Text?)
  {
    RoutePatternGroups();
    RouteGroupsUnique(rc);
    RoutePatternRequired();
    FieldValue(RouteSchema(rc), line, lib, n);
    RouteCastTable();
  }

  /** Which groups the route table casts, and to what. */
  lemma NetworkCastEntry()
    ensures "network" in RouteCasts && RouteCasts["network"] == NetworkCast
  {
  }

  lemma RouteCastTable()
    ensures forall k :: k in RouteCasts ==> k in {"network", "src", "metric", "mtu", "advmss"}
    ensures RouteCasts["network"] == NetworkCast && RouteCasts["src"] == AddressCast
    ensures forall k :: k in {"metric", "mtu", "advmss"} ==> k in RouteCasts && RouteCasts[k] == IntCast && k in RouteDigits && RouteDigits[k] == Digit
    ensures "via" !in RouteCasts && "dev" !in RouteCasts && "proto" !in RouteCasts
  {
  }

  // -----------------------------------------------------------------------
  // construct

  /**
   * The keyword arguments `construct` passes on: the parsed groups with
   * the nexthops set and a "default" network replaced by the class's zero
   * prefix (an AttributeError on the plain Route class, which has none).
   */
  function RouteArgs(rc: RouteClass, result: Dict<Value>, nhops: seq<Record>): Result<Dict<Value>, Error> {
    var withHops := Put(result, "nexthops", Records(nhops));
    if Lookup(withHops, "network") == Some(Text("default")) then
      if rc.anyaddr.None? then Err(AttributeError("anyaddr"))
      else Ok(Put(withHops, "network", Text(rc.anyaddr.value)))
    else Ok(withHops)
  }

  /** `cls(**result)` once the nexthops are known. */
  function RouteBuild(rc: RouteClass, result: Dict<Value>, nhops: seq<Record>, lib: NetLib): Result<Record, Error> {
    var kw :- RouteArgs(rc, result, nhops);
    Construct(rc.kind, kw, RouteCasts, lib)
  }

  /** `Route.construct(result, line)`: the nexthops of the line, then the record. */
  function RouteConstruct(rc: RouteClass, result: Dict<Value>, line: string, lib: NetLib): Result<Record, Error> {
    var nhops :- Nexthops(line, lib);
    RouteBuild(rc, result, nhops, lib)
  }

  /**
   * The arguments hold the nexthops; the network is the zero prefix when
   * the line said "default" and otherwise as parsed; every other argument
   * is untouched. Only a default route on the plain class fails.
   */
  lemma RouteArgsFields(rc: RouteClass, result: Dict<Value>, nhops: seq<Record>)
    requires Distinct(result)
    ensures RouteArgs(rc, result, nhops).Err? <==> Lookup(result, "network") == Some(Text("default")) && rc.anyaddr.None?
    ensures RouteArgs(rc, result, nhops).Err? ==> RouteArgs(rc, result, nhops).error == AttributeError("anyaddr")
    ensures RouteArgs(rc, result, nhops).Ok? ==>
      var kw := RouteArgs(rc, result, nhops).value;
      && Distinct(kw)
      && Lookup(kw, "nexthops") == Some(Records(nhops))
      && Lookup(kw, "network") == (if Lookup(result, "network") == Some(Text("default"))
                                   then Some(Text(rc.anyaddr.value)) else Lookup(result, "network"))
      && forall k :: k != "nexthops" && k != "network" ==> Lookup(kw, k) == Lookup(result, k)
  {
    var withHops := Put(result, "nexthops", Records(nhops));
    PutDistinct(result, "nexthops", Records(nhops));
    assert Lookup(withHops, "network") == Lookup(result, "network");
    if Lookup(withHops, "network") == Some(Text("default")) && rc.anyaddr.Some? {
      PutDistinct(withHops, "network", Text(rc.anyaddr.value));
    }
  }

  /**
   * A constructed route holds the line's nexthops, has the class's kind,
   * and its network is the converted zero prefix when the line said
   * "default" and the converted parsed network otherwise.
   */
  lemma RouteBuildFields(rc: RouteClass, result: Dict<Value>, nhops: seq<Record>, lib: NetLib)
    requires Distinct(result) && RouteBuild(rc, result, nhops, lib).Ok?
    ensures var r := RouteBuild(rc, result, nhops, lib).value;
      && r.kind == rc.kind
      && Lookup(r.fields, "nexthops") == Some(Records(nhops))
      && (Lookup(result, "network") == Some(Text("default")) ==>
            rc.anyaddr.Some? && lib.network(rc.anyaddr.value).Some? &&
            Lookup(r.fields, "network") == Some(Network(lib.network(rc.anyaddr.value).value)))
      && (Lookup(result, "network") != Some(Text("default")) && Lookup(result, "network").Some? ==>
            && Converted("network", Lookup(result, "network").value, RouteCasts, lib).Ok?
            && Lookup(r.fields, "network") == Some(Converted("network", Lookup(result, "network").value, RouteCasts, lib).value))
  {
    RouteArgsFields(rc, result, nhops);
    var kw := RouteArgs(rc, result, nhops).value;
    RecordOfArgs(rc, kw, lib);
    if Lookup(result, "network") == Some(Text("default")) {
      NetworkCastEntry();
      NetCasts("network", Text(rc.anyaddr.value), lib);
    }
  }

  /** What construction does with the nexthops and the network argument. */
  lemma RecordOfArgs(rc: RouteClass, kw: Dict<Value>, lib: NetLib)
    requires Distinct(kw) && Construct(rc.kind, kw, RouteCasts, lib).Ok?
    ensures var r := Construct(rc.kind, kw, RouteCasts, lib).value;
      && r.kind == rc.kind
      && (Lookup(kw, "nexthops").Some? ==> Lookup(r.fields, "nexthops") == Lookup(kw, "nexthops"))
      && (Lookup(kw, "network").Some? ==>
            && Converted("network", Lookup(kw, "network").value, RouteCasts, lib).Ok?
            && Lookup(r.fields, "network") == Some(Converted("network", Lookup(kw, "network").value, RouteCasts, lib).value))
  {
    ConstructLookup(rc.kind, kw, RouteCasts, lib, "nexthops");
    ConstructLookup(rc.kind, kw, RouteCasts, lib, "network");
    assert "nexthops" !in RouteCasts;
  }

  // -----------------------------------------------------------------------
  // The nexthop argument list

  /** The attributes `_convert_nexthops` reads from each nexthop, in order. */
  const NexthopKeys: seq<string> := ["via", "dev", "weight"]

  /** `xs` put in front of a successful list; an exception passes through. */
  function Prefixed(xs: seq<string>, r: Result<seq<string>, Error>): Result<seq<string>, Error> {
    if r.Ok? then Ok(xs + r.value) else r
  }

  /** Two lists built one after the other: the first exception wins. */
  function Then(a: Result<seq<string>, Error>, b: Result<seq<string>, Error>): Result<seq<string>, Error> {
    if a.Err? then a else Prefixed(a.value, b)
  }

  /** `key, str(getattr(nexthop, key))` for each key in turn. */
  function KeyTokens(nh: Record, keys: seq<string>): (r: Result<seq<string>, Error>)
    ensures r.Ok? <==> forall i :: 0 <= i < |keys| ==> Lookup(nh.fields, keys[i]).Some?
    ensures r.Ok? ==> |r.value| == 2 * |keys| && forall i :: 0 <= i < |keys| ==>
      r.value[2 * i] == keys[i] && Lookup(nh.fields, keys[i]).Some? && r.value[2 * i + 1] == Render(Lookup(nh.fields, keys[i]).value)
    ensures r.Err? ==> exists i :: 0 <= i < |keys| && r.error == AttributeError(keys[i]) && Lookup(nh.fields, keys[i]).None?
  {
    if keys == [] then Ok([])
    else
      match Lookup(nh.fields, keys[0])
      case None => Err(AttributeError(keys[0]))
      case Some(v) =>
        var rest := KeyTokens(nh, keys[1..]);
        TokensCons(nh, keys, v, rest);
        if rest.Err? then rest
        else Ok([keys[0], Render(v)] + rest.value)
  }

  /** The first key's pair in front of the rest's pairs covers every key. */
  lemma TokensCons(nh: Record, keys: seq<string>, v: Value, rest: Result<seq<string>, Error>)
    requires keys != [] && Lookup(nh.fields, keys[0]) == Some(v)
    requires rest.Ok? <==> forall i :: 0 <= i < |keys[1..]| ==> Lookup(nh.fields, keys[1..][i]).Some?
    requires rest.Ok? ==> |rest.value| == 2 * |keys[1..]| && forall i :: 0 <= i < |keys[1..]| ==>
      rest.value[2 * i] == keys[1..][i] && Lookup(nh.fields, keys[1..][i]).Some? &&
      rest.value[2 * i + 1] == Render(Lookup(nh.fields, keys[1..][i]).value)
    requires rest.Err? ==> exists i :: 0 <= i < |keys[1..]| && rest.error == AttributeError(keys[1..][i]) && Lookup(nh.fields, keys[1..][i]).None?
    ensures rest.Ok? <==> forall i :: 0 <= i < |keys| ==> Lookup(nh.fields, keys[i]).Some?
    ensures rest.Ok? ==> var t := [keys[0], Render(v)] + rest.value;
      |t| == 2 * |keys| && forall i :: 0 <= i < |keys| ==>
        t[2 * i] == keys[i] && Lookup(nh.fields, keys[i]).Some? && t[2 * i + 1] == Render(Lookup(nh.fields, keys[i]).value)
    ensures rest.Err? ==> exists i :: 0 <= i < |keys| && rest.error == AttributeError(keys[i]) && Lookup(nh.fields, keys[i]).None?
  {
    assert (forall i :: 0 <= i < |keys| ==> Lookup(nh.fields, keys[i]).Some?) <==>
      forall i :: 0 <= i < |keys[1..]| ==> Lookup(nh.fields, keys[1..][i]).Some? by {
      assert forall i :: 1 <= i < |keys| ==> keys[i] == keys[1..][i - 1];
    }
    if rest.Ok? {
      TokensOkCons(nh, keys, v, rest.value);
    } else {
      var i :| 0 <= i < |keys[1..]| && rest.error == AttributeError(keys[1..][i]) && Lookup(nh.fields, keys[1..][i]).None?;
      assert keys[i + 1] == keys[1..][i];
    }
  }

  lemma TokensOkCons(nh: Record, keys: seq<string>, v: Value, rest: seq<string>)
    requires keys != [] && Lookup(nh.fields, keys[0]) == Some(v)
    requires |rest| == 2 * |keys[1..]| && forall i :: 0 <= i < |keys[1..]| ==>
      rest[2 * i] == keys[1..][i] && Lookup(nh.fields, keys[1..][i]).Some? &&
      rest[2 * i + 1] == Render(Lookup(nh.fields, keys[1..][i]).value)
    ensures var t := [keys[0], Render(v)] + rest;
      |t| == 2 * |keys| && forall i :: 0 <= i < |keys| ==>
        t[2 * i] == keys[i] && Lookup(nh.fields, keys[i]).Some? && t[2 * i + 1] == Render(Lookup(nh.fields, keys[i]).value)
  {
    var t := [keys[0], Render(v)] + rest;
    forall i | 0 <= i < |keys|
      ensures t[2 * i] == keys[i] && Lookup(nh.fields, keys[i]).Some? && t[2 * i + 1] == Render(Lookup(nh.fields, keys[i]).value)
    {
      if i > 0 {
        assert keys[i] == keys[1..][i - 1];
        assert t[2 * i] == rest[2 * (i - 1)] && t[2 * i + 1] == rest[2 * (i - 1) + 1];
      }
    }
  }

  /**
   * `_convert_nexthops(nexthops)`: for each nexthop, "nexthop" and then
   * each of via, dev and weight as a name and its text.
   */
  function NexthopArgs(nhs: seq<Record>): Result<seq<string>, Error> {
    if nhs == [] then Ok([])
    else Prefixed(["nexthop"], Then(KeyTokens(nhs[0], NexthopKeys), NexthopArgs(nhs[1..])))
  }

  /** Has every attribute `_convert_nexthops` reads. */
  predicate Complete(nh: Record) {
    Lookup(nh.fields, "via").Some? && Lookup(nh.fields, "dev").Some? && Lookup(nh.fields, "weight").Some?
  }

  /** The text `str(getattr(nh, k))` gives, for an attribute the nexthop has. */
  function FieldText(nh: Record, k: string): string {
    match Lookup(nh.fields, k)
    case None => ""
    case Some(v) => Render(v)
  }

  /** The seven tokens one nexthop contributes. */
  function NexthopBlock(nh: Record): seq<string> {
    ["nexthop", "via", FieldText(nh, "via"), "dev", FieldText(nh, "dev"), "weight", FieldText(nh, "weight")]
  }

  /** Reference definition of the list: the blocks of the nexthops, one after the other. */
  function Blocks(nhs: seq<Record>): seq<string> {
    if nhs == [] then [] else NexthopBlock(nhs[0]) + Blocks(nhs[1..])
  }

  /** The list is built exactly when every nexthop has via, dev and weight. */
  lemma {:induction false} NexthopArgsOk(nhs: seq<Record>)
    ensures NexthopArgs(nhs).Ok? <==> forall i :: 0 <= i < |nhs| ==> Complete(nhs[i])
  {
    if nhs != [] {
      NexthopArgsOk(nhs[1..]);
      CompleteIff(nhs[0]);
      NexthopArgsStep(nhs);
      CompleteShift(nhs);
    }
  }

  lemma NexthopArgsStep(nhs: seq<Record>)
    requires nhs != []
    ensures NexthopArgs(nhs).Ok? <==> KeyTokens(nhs[0], NexthopKeys).Ok? && NexthopArgs(nhs[1..]).Ok?
  {
  }

  lemma CompleteShift(nhs: seq<Record>)
    requires nhs != []
    ensures (forall i :: 0 <= i < |nhs| ==> Complete(nhs[i])) <==>
      Complete(nhs[0]) && forall i :: 0 <= i < |nhs[1..]| ==> Complete(nhs[1..][i])
  {
    assert forall i :: 1 <= i < |nhs| ==> nhs[i] == nhs[1..][i - 1];
  }

  /** A nexthop's three pairs can be built exactly when it has all three attributes. */
  lemma CompleteIff(nh: Record)
    ensures KeyTokens(nh, NexthopKeys).Ok? <==> Complete(nh)
  {
    assert NexthopKeys[0] == "via" && NexthopKeys[1] == "dev" && NexthopKeys[2] == "weight";
  }

  /** A built list is the nexthops' blocks in order. */
  lemma {:induction false} NexthopArgsAreBlocks(nhs: seq<Record>)
    requires NexthopArgs(nhs).Ok?
    ensures forall i :: 0 <= i < |nhs| ==> Complete(nhs[i])
    ensures NexthopArgs(nhs).value == Blocks(nhs)
  {
    NexthopArgsOk(nhs);
    if nhs != [] {
      var head := KeyTokens(nhs[0], NexthopKeys);
      assert head.Ok? && NexthopArgs(nhs[1..]).Ok?;
      NexthopArgsAreBlocks(nhs[1..]);
      HeadTokens(nhs[0]);
      assert NexthopArgs(nhs).value == ["nexthop"] + head.value + NexthopArgs(nhs[1..]).value;
    }
  }

  /** A list that cannot be built fails on a missing attribute. */
  lemma {:induction false} NexthopArgsError(nhs: seq<Record>)
    requires NexthopArgs(nhs).Err?
    ensures NexthopArgs(nhs).error.AttributeError? && NexthopArgs(nhs).error.name in NexthopKeys
  {
    if KeyTokens(nhs[0], NexthopKeys).Ok? {
      NexthopArgsError(nhs[1..]);
    }
  }

  /** Seven tokens per nexthop. */
  lemma {:induction false} BlocksLength(nhs: seq<Record>)
    ensures |Blocks(nhs)| == 7 * |nhs|
  {
    if nhs != [] {
      BlocksLength(nhs[1..]);
    }
  }

  /** Token 7i+m of the list is token m of nexthop i's block. */
  lemma {:induction false} BlocksAt(nhs: seq<Record>, i: nat, m: nat)
    requires i < |nhs| && m < 7
    ensures 7 * i + m < |Blocks(nhs)| && Blocks(nhs)[7 * i + m] == NexthopBlock(nhs[i])[m]
  {
    var head := NexthopBlock(nhs[0]);
    var rest := Blocks(nhs[1..]);
    assert Blocks(nhs) == head + rest;
    assert |head| == 7;
    if i == 0 {
      assert (head + rest)[m] == head[m];
    } else {
      BlocksAt(nhs[1..], i - 1, m);
      assert nhs[i] == nhs[1..][i - 1];
      ShiftBlock(head, rest, i, m);
    }
  }

  lemma ShiftBlock(head: seq<string>, rest: seq<string>, i: nat, m: nat)
    requires |head| == 7 && 1 <= i && 7 * (i - 1) + m < |rest|
    ensures (head + rest)[7 * i + m] == rest[7 * (i - 1) + m]
  {
  }

  /** The six tokens a nexthop with via, dev and weight gives after "nexthop". */
  lemma HeadTokens(nh: Record)
    requires KeyTokens(nh, NexthopKeys).Ok?
    ensures Complete(nh)
    ensures ["nexthop"] + KeyTokens(nh, NexthopKeys).value == NexthopBlock(nh)
  {
    var t := KeyTokens(nh, NexthopKeys).value;
    assert NexthopKeys[0] == "via" && NexthopKeys[1] == "dev" && NexthopKeys[2] == "weight";
    assert t[0] == "via" && t[2] == "dev" && t[4] == "weight";
    assert |t| == 6;
  }

  lemma PrefixedAssoc(a: seq<string>, b: seq<string>, r: Result<seq<string>, Error>)
    ensures Prefixed(a, Prefixed(b, r)) == Prefixed(a + b, r)
  {
    if r.Ok? {
      assert a + (b + r.value) == (a + b) + r.value;
    }
  }

  lemma PrefixedEmpty(r: Result<seq<string>, Error>)
    ensures Prefixed([], r) == r
  {
    if r.Ok? {
      assert [] + r.value == r.value;
    }
  }

  lemma ThenPrefixed(a: seq<string>, x: Result<seq<string>, Error>, b: Result<seq<string>, Error>)
    ensures Then(Prefixed(a, x), b) == Prefixed(a, Then(x, b))
  {
    if x.Ok? {
      PrefixedAssoc(a, x.value, b);
    }
  }

  /**
   * `_convert_nexthops` as the source writes it: an append loop over the
   * nexthops and, inside it, over the three attribute names.
   */
  method ConvertNexthops(nhs: seq<Record>) returns (r: Result<seq<string>, Error>)
    ensures r == NexthopArgs(nhs)
  {
    var nextargs: seq<string> := [];
    var i := 0;
    assert nhs[i..] == nhs;
    PrefixedEmpty(NexthopArgs(nhs));
    while i < |nhs|
      invariant 0 <= i <= |nhs|
      invariant NexthopArgs(nhs) == Prefixed(nextargs, NexthopArgs(nhs[i..]))
    {
      assert nhs[i..][1..] == nhs[i + 1..];
      PrefixedAssoc(nextargs, ["nexthop"], Then(KeyTokens(nhs[i], NexthopKeys), NexthopArgs(nhs[i + 1..])));
      nextargs := nextargs + ["nexthop"];
      var j := 0;
      while j < |NexthopKeys|
        invariant 0 <= j <= |NexthopKeys|
        invariant NexthopArgs(nhs) == Prefixed(nextargs, Then(KeyTokens(nhs[i], NexthopKeys[j..]), NexthopArgs(nhs[i + 1..])))
      {
        var key := NexthopKeys[j];
        assert NexthopKeys[j..][1..] == NexthopKeys[j + 1..];
        var v := Lookup(nhs[i].fields, key);
        if v.None? {
          return Err(AttributeError(key));
        }
        var tail := KeyTokens(nhs[i], NexthopKeys[j + 1..]);
        assert KeyTokens(nhs[i], NexthopKeys[j..]) == Prefixed([key, Render(v.value)], tail);
        ThenPrefixed([key, Render(v.value)], tail, NexthopArgs(nhs[i + 1..]));
        PrefixedAssoc(nextargs, [key, Render(v.value)], Then(tail, NexthopArgs(nhs[i + 1..])));
        nextargs := nextargs + [key, Render(v.value)];
        j := j + 1;
      }
      assert NexthopKeys[j..] == [];
      PrefixedEmpty(NexthopArgs(nhs[i + 1..]));
      i := i + 1;
    }
    assert nhs[i..] == [];
    assert nextargs + [] == nextargs;
    return Ok(nextargs);
  }

  /**
   * The arguments built from a line's nexthops say what the line said: one
   * block per match, its via token the canonical address, its dev token
   * the captured device, and its weight token reading back as the weight.
   */
  lemma NexthopArgsOfLine(line: string, lib: NetLib)
    requires Nexthops(line, lib).Ok?
    ensures NexthopArgs(Nexthops(line, lib).value).Ok?
    ensures |NexthopArgs(Nexthops(line, lib).value).value| == 7 * |FindAll(NexthopPattern, line, 0)|
  {
    var nhs := Nexthops(line, lib).value;
    ParsedComplete(line, lib);
    NexthopArgsOk(nhs);
    NexthopArgsAreBlocks(nhs);
    BlocksLength(nhs);
  }

  /** Every nexthop parsed from a line has via, dev and weight. */
  lemma ParsedComplete(line: string, lib: NetLib)
    requires Nexthops(line, lib).Ok?
    ensures |Nexthops(line, lib).value| == |FindAll(NexthopPattern, line, 0)|
    ensures forall i :: 0 <= i < |Nexthops(line, lib).value| ==> Complete(Nexthops(line, lib).value[i])
  {
    var fs := FindAll(NexthopPattern, line, 0);
    var nhs := Nexthops(line, lib).value;
    forall i | 0 <= i < |nhs| ensures Complete(nhs[i]) {
      NexthopFields(line, fs[i], lib);
    }
  }

  /** Block i of a line's argument list describes match i. */
  lemma TokensAt(line: string, lib: NetLib, i: nat)
    requires Nexthops(line, lib).Ok? && i < |FindAll(NexthopPattern, line, 0)|
    ensures NexthopArgs(Nexthops(line, lib).value).Ok?
    ensures var f := FindAll(NexthopPattern, line, 0)[i];
      var toks := NexthopArgs(Nexthops(line, lib).value).value;
      && 7 * i + 7 <= |toks|
      && "via" in f.env && "dev" in f.env && "weight" in f.env && SpansIn(f.env, |line|)
      && lib.address(Captured(line, f.env["via"])).Some?
      && toks[7 * i + 2] == lib.address(Captured(line, f.env["via"])).value
      && toks[7 * i + 4] == Captured(line, f.env["dev"])
      && ParseInt(toks[7 * i + 6]) == ParseInt(Captured(line, f.env["weight"]))
  {
    var fs := FindAll(NexthopPattern, line, 0);
    var nhs := Nexthops(line, lib).value;
    NexthopIsMatch(line, lib, i);
    MatchTokens(line, fs[i], nhs, i, lib);
  }

  /** Nexthop i of a line is built from match i, and the list of all of them can be built. */
  lemma NexthopIsMatch(line: string, lib: NetLib, i: nat)
    requires Nexthops(line, lib).Ok? && i < |FindAll(NexthopPattern, line, 0)|
    ensures var fs := FindAll(NexthopPattern, line, 0);
      && fs[i].start <= |line| && Match(NexthopPattern, line, fs[i].start, map[]) == Some((fs[i].env, fs[i].end))
      && SpansIn(fs[i].env, |line|) && NexthopAt(line, fs[i], lib).Ok?
      && NexthopArgs(Nexthops(line, lib).value).Ok? && i < |Nexthops(line, lib).value|
      && Nexthops(line, lib).value[i] == NexthopAt(line, fs[i], lib).value
  {
    var fs := FindAll(NexthopPattern, line, 0);
    var nhs := Nexthops(line, lib).value;
    ParsedComplete(line, lib);
    NexthopArgsOk(nhs);
    FindAllSpans(NexthopPattern, line, 0);
    assert nhs == NexthopRecords(line, fs, lib).value;
  }

  /** The tokens of a nexthop built from a match are the match's captures, converted. */
  lemma MatchTokens(line: string, f: Found, nhs: seq<Record>, i: nat, lib: NetLib)
    requires f.start <= |line| && Match(NexthopPattern, line, f.start, map[]) == Some((f.env, f.end))
    requires SpansIn(f.env, |line|) && NexthopAt(line, f, lib).Ok?
    requires NexthopArgs(nhs).Ok? && i < |nhs| && nhs[i] == NexthopAt(line, f, lib).value
    ensures var toks := NexthopArgs(nhs).value;
      && 7 * i + 7 <= |toks|
      && "via" in f.env && "dev" in f.env && "weight" in f.env
      && lib.address(Captured(line, f.env["via"])).Some?
      && toks[7 * i + 2] == lib.address(Captured(line, f.env["via"])).value
      && toks[7 * i + 4] == Captured(line, f.env["dev"])
      && ParseInt(toks[7 * i + 6]) == ParseInt(Captured(line, f.env["weight"]))
  {
    NexthopFields(line, f, lib);
    ArgsFields(nhs, i);
  }

  /** Block i of a built list carries nexthop i's via, dev and weight. */
  lemma ArgsFields(nhs: seq<Record>, i: nat)
    requires NexthopArgs(nhs).Ok? && i < |nhs|
    ensures Complete(nhs[i]) && 7 * i + 7 <= |NexthopArgs(nhs).value|
    ensures NexthopArgs(nhs).value[7 * i + 2] == Render(Lookup(nhs[i].fields, "via").value)
    ensures NexthopArgs(nhs).value[7 * i + 4] == Render(Lookup(nhs[i].fields, "dev").value)
    ensures NexthopArgs(nhs).value[7 * i + 6] == Render(Lookup(nhs[i].fields, "weight").value)
  {
    ArgsToken(nhs, i, 2);
    ArgsToken(nhs, i, 4);
    ArgsToken(nhs, i, 6);
    BlockFields(nhs[i]);
  }

  /** Tokens 2, 4 and 6 of a block are the texts of via, dev and weight. */
  lemma BlockFields(nh: Record)
    requires Complete(nh)
    ensures NexthopBlock(nh)[2] == Render(Lookup(nh.fields, "via").value)
    ensures NexthopBlock(nh)[4] == Render(Lookup(nh.fields, "dev").value)
    ensures NexthopBlock(nh)[6] == Render(Lookup(nh.fields, "weight").value)
  {
  }

  /** Token 7i+m of a built list is token m of nexthop i's block. */
  lemma ArgsToken(nhs: seq<Record>, i: nat, m: nat)
    requires NexthopArgs(nhs).Ok? && i < |nhs| && m < 7
    ensures Complete(nhs[i]) && 7 * i + 7 <= |NexthopArgs(nhs).value|
    ensures NexthopArgs(nhs).value[7 * i + m] == NexthopBlock(nhs[i])[m]
  {
    NexthopArgsAreBlocks(nhs);
    BlocksLength(nhs);
    BlocksAt(nhs, i, m);
  }

  // -----------------------------------------------------------------------
  // add, replace and flush

  /** The keyword order `add` and `replace` pass their arguments in. */
  const RouteOrder: seq<string> := ["table", "src", ""]

  /** The keyword order of `flush`. */
  const FlushOrder: seq<string> := ["table", "label"]

  /**
   * `_convert_nexthops` on whatever value `nexthops` holds: it only
   * iterates over it. A list of nexthops gives their tokens. An empty
   * string or list gives none. A non-empty string or list of strings
   * fails on its first element, which has no `via`. An IPNetwork
   * iterates its addresses and an EUI its words; neither is ever empty,
   * so both fail the same way. None, an int, a bool and an IPAddress
   * cannot be iterated.
   */
  function ConvertValue(v: Value): (r: Result<seq<string>, Error>)
    ensures v.Records? ==> r == NexthopArgs(v.records)
    ensures v == Text("") || v == Texts([]) ==> r == Ok([])
    ensures (v.Text? && v.text != "") || (v.Texts? && v.texts != []) ==> r == Err(AttributeError("via"))
    ensures v.Network? || v.Mac? ==> r == Err(AttributeError("via"))
    ensures v.Null? || v.Int? || v.Bool? || v.Address? ==> r.Err? && r.error.TypeError?
  {
    match v
    case Records(rs) => NexthopArgs(rs)
    case Text(t) => if t == "" then Ok([]) else Err(AttributeError("via"))
    case Texts(ts) => if ts == [] then Ok([]) else Err(AttributeError("via"))
    case Network(_) => Err(AttributeError("via"))
    case Mac(_) => Err(AttributeError("via"))
    case _ => Err(TypeError("nexthops is not iterable"))
  }

  /**
   * The keyword arguments `add` and `replace` hand on: `nexthops` is
   * popped and its token list stored under the empty key.
   */
  function RouteKwargs(kwargs: Dict<Value>): Result<Dict<Value>, Error> {
    var nh := Lookup(kwargs, "nexthops");
    if nh.None? then Ok(kwargs)
    else
      var args :- ConvertValue(nh.value);
      Ok(Put(Remove(kwargs, "nexthops"), "", Texts(args)))
  }

  /**
   * Without nexthops the arguments pass unchanged. With them, `nexthops`
   * is gone, the empty key holds the token list, and every other keyword
   * keeps its value; the rewriting fails only when the token list does.
   */
  lemma RouteKwargsRewrite(kwargs: Dict<Value>)
    ensures Lookup(kwargs, "nexthops").None? ==> RouteKwargs(kwargs) == Ok(kwargs)
    ensures Lookup(kwargs, "nexthops").Some? ==>
      var args := ConvertValue(Lookup(kwargs, "nexthops").value);
      && (RouteKwargs(kwargs).Ok? <==> args.Ok?)
      && (RouteKwargs(kwargs).Err? ==> RouteKwargs(kwargs) == Err(args.error))
      && (RouteKwargs(kwargs).Ok? ==>
            && Lookup(RouteKwargs(kwargs).value, "nexthops").None?
            && Lookup(RouteKwargs(kwargs).value, "") == Some(Texts(args.value))
            && forall k :: k != "nexthops" && k != "" ==> Lookup(RouteKwargs(kwargs).value, k) == Lookup(kwargs, k))
    ensures RouteKwargs(kwargs).Ok? && Distinct(kwargs) ==> Distinct(RouteKwargs(kwargs).value)
  {
  }

  /** The keyword rewriting as the source does it, in place on the dictionary. */
  method RewriteKwargs(kwargs: Dict<Value>) returns (r: Result<Dict<Value>, Error>)
    ensures r == RouteKwargs(kwargs)
  {
    var kw := kwargs;
    if Lookup(kw, "nexthops").Some? {
      var nexthops := Lookup(kw, "nexthops").value;
      kw := Remove(kw, "nexthops");
      var args: Result<seq<string>, Error>;
      if nexthops.Records? {
        args := ConvertNexthops(nexthops.records);
      } else {
        args := ConvertValue(nexthops);
      }
      if args.Err? {
        return Err(args.error);
      }
      kw := Put(kw, "", Texts(args.value));
    }
    return Ok(kw);
  }

  /** `add(network, **kwargs)`: clear the cache, then call `add` on the rewritten arguments. */
  method Add(cache: Cache, network: Value, kwargs: Dict<Value>) returns (r: Result<Invocation, Error>)
    modifies cache
    ensures cache.entries == map[]
    ensures r.Ok? <==> RouteKwargs(kwargs).Ok?
    ensures r.Ok? ==> r.value == Invocation(Command(["add"], RouteOrder), [network], RouteKwargs(kwargs).value)
  {
    cache.Clear();
    var kw := RewriteKwargs(kwargs);
    if kw.Err? {
      return Err(kw.error);
    }
    return Ok(Invocation(Command(["add"], RouteOrder), [network], kw.value));
  }

  /** `replace(network, **kwargs)`: as `add`, with the `replace` command. */
  method Replace(cache: Cache, network: Value, kwargs: Dict<Value>) returns (r: Result<Invocation, Error>)
    modifies cache
    ensures cache.entries == map[]
    ensures r.Ok? <==> RouteKwargs(kwargs).Ok?
    ensures r.Ok? ==> r.value == Invocation(Command(["replace"], RouteOrder), [network], RouteKwargs(kwargs).value)
  {
    cache.Clear();
    var kw := RewriteKwargs(kwargs);
    if kw.Err? {
      return Err(kw.error);
    }
    return Ok(Invocation(Command(["replace"], RouteOrder), [network], kw.value));
  }

  /** `flush`: clear the cache and give the `flush` command. */
  method Flush(cache: Cache) returns (c: Command)
    modifies cache
    ensures cache.entries == map[]
    ensures c == Command(["flush"], FlushOrder)
  {
    cache.Clear();
    c := Command(["flush"], FlushOrder);
  }

  // -----------------------------------------------------------------------
  // Hashing

  /**
   * `__hash__` as written: it returns the network attribute itself.
   * Python's `hash()` accepts only an int from `__hash__`, so anything else
   * raises TypeError.
   */
  function HashAsWritten(rec: Record): Result<int, Error> {
    match Lookup(rec.fields, "network")
    case None => Err(AttributeError("network"))
    case Some(v) => if v.Int? then Ok(v.num) else Err(TypeError("__hash__ method should return an integer"))
  }

  /** Hashing any parsed route raises: its network is an IPNetwork, not an int. */
  lemma HashOfParsedRouteRaises(rc: RouteClass, line: string, lib: NetLib)
    requires FromString(RouteSchema(rc), line, lib).Ok?
    ensures HashAsWritten(FromString(RouteSchema(rc), line, lib).value).Err?
    ensures HashAsWritten(FromString(RouteSchema(rc), line, lib).value).error.TypeError?
  {
    RouteFields(rc, line, lib, "network");
  }

  /**
   * The hash the method evidently means, `hash(self.network)`, with
   * Python's hash of a value as the parameter h.
   */
  function Hash(rec: Record, h: Value -> int): Result<int, Error> {
    match Lookup(rec.fields, "network")
    case None => Err(AttributeError("network"))
    case Some(v) => Ok(h(v))
  }

  /**
   * Every parsed route can be hashed, and two routes with the same network
   * hash alike, so routes can be put in sets keyed on their network.
   */
  lemma HashByNetwork(rc: RouteClass, line: string, rc': RouteClass, line': string, lib: NetLib, h: Value -> int)
    requires FromString(RouteSchema(rc), line, lib).Ok? && FromString(RouteSchema(rc'), line', lib).Ok?
    ensures Hash(FromString(RouteSchema(rc), line, lib).value, h).Ok?
    ensures Lookup(FromString(RouteSchema(rc), line, lib).value.fields, "network") ==
            Lookup(FromString(RouteSchema(rc'), line', lib).value.fields, "network") ==>
      Hash(FromString(RouteSchema(rc), line, lib).value, h) == Hash(FromString(RouteSchema(rc'), line', lib).value, h)
  {
    RouteFields(rc, line, lib, "network");
    RouteFields(rc', line', lib, "network");
  }
}
