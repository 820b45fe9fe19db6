/**
 * The pipeline every record kind shares (ipyroute/base.py): turning one
 * line of `ip` output into a record (`from_string`), flattening query
 * arguments (`_unwind`) and the query itself (`get`), plus the pieces the
 * mutating commands use: the class cache and wrapped tool commands.
 *
 * The external tool is a parameter: a function from the argument list to
 * the lines it prints.
 */
module Base {
  import opened Common
  import opened Dicts
  import opened Regex
  import opened Values

  /** A record kind: its class name, its line regex and its cast table. */
  datatype Schema = Schema(kind: string, pattern: Pat, casts: map<string, Cast>)

  predicate NoDuplicates(names: seq<string>) {
    forall i, j :: 0 <= i < j < |names| ==> names[i] != names[j]
  }

  /** Python refuses a regex that names two groups alike. */
  predicate WellFormed(sc: Schema) {
    NoDuplicates(Names(sc.pattern))
  }

  /** The text group n captured, or None when the group took no part in the match. */
  function GroupValue(s: string, env: Env, n: string): Value
    requires SpansIn(env, |s|)
  {
    if n in env then Text(Captured(s, env[n])) else Null
  }

  /** `match.groupdict()`: each group in order with its value. */
  function GroupArgs(names: seq<string>, s: string, env: Env): (kw: Dict<Value>)
    requires SpansIn(env, |s|)
    ensures Keys(kw) == names
    ensures forall i :: 0 <= i < |kw| ==> kw[i].1 == GroupValue(s, env, names[i])
  {
    if names == [] then []
    else [(names[0], GroupValue(s, env, names[0]))] + GroupArgs(names[1..], s, env)
  }

  /**
   * `from_string`: match the kind's regex at the start of the line; no
   * match raises ValueError, otherwise the group dictionary (passed on
   * unchanged by the `recurse` hook) becomes the constructor's keyword
   * arguments.
   */
  function FromString(sc: Schema, line: string, lib: NetLib): (r: Result<Record, Error>)
    ensures r.Err? && r.error.NoMatch? <==> Match(sc.pattern, line, 0, map[]).None?
    ensures r.Err? && r.error.NoMatch? ==> r.error == NoMatch(sc.kind, line)
    ensures r.Ok? ==> r.value.kind == sc.kind
  {
    match Match(sc.pattern, line, 0, map[])
    case None => Err(NoMatch(sc.kind, line))
    case Some((env, _)) =>
      MatchShape(sc.pattern, line, 0, map[]);
      var r := Construct(sc.kind, GroupArgs(Names(sc.pattern), line, env), sc.casts, lib);
      ConstructNotNoMatch(sc.kind, GroupArgs(Names(sc.pattern), line, env), sc.casts, lib);
      r
  }

  /** Casting raises CastFailure or TypeError, never the no-match error. */
  lemma ConstructNotNoMatch(kind: string, kw: Dict<Value>, casts: map<string, Cast>, lib: NetLib)
    ensures Construct(kind, kw, casts, lib).Err? ==> !Construct(kind, kw, casts, lib).error.NoMatch?
    ensures Construct(kind, kw, casts, lib).Ok? ==> Construct(kind, kw, casts, lib).value.kind == kind
  {
    ConstructOk(kind, kw, casts, lib);
    if Construct(kind, kw, casts, lib).Err? {
      var i :| 0 <= i < |kw| && Converted(kw[i].0, kw[i].1, casts, lib).Err?;
      var j := FirstFailure(kw, casts, lib, i);
      ConstructFirstError(kind, kw, casts, lib, j);
    }
  }

  lemma FirstFailure(kw: Dict<Value>, casts: map<string, Cast>, lib: NetLib, i: nat) returns (j: nat)
    requires i < |kw| && Converted(kw[i].0, kw[i].1, casts, lib).Err?
    ensures j <= i && Converted(kw[j].0, kw[j].1, casts, lib).Err?
    ensures forall k :: 0 <= k < j ==> Converted(kw[k].0, kw[k].1, casts, lib).Ok?
  {
    j := 0;
    while Converted(kw[j].0, kw[j].1, casts, lib).Ok?
      invariant j <= i
      invariant forall k :: 0 <= k < j ==> Converted(kw[k].0, kw[k].1, casts, lib).Ok?
      decreases i - j
    {
      j := j + 1;
    }
  }

  /**
   * A line that matches becomes a record with exactly the pattern's groups
   * as attributes, in group order: a group that took part holds its
   * captured text, cast when the table names it; a group that did not
   * take part holds None. Casting is the only way such a line can fail.
   */
  lemma FromStringFields(sc: Schema, line: string, lib: NetLib)
    requires WellFormed(sc)
    requires Match(sc.pattern, line, 0, map[]).Some?
    ensures var env := Match(sc.pattern, line, 0, map[]).value.0;
      SpansIn(env, |line|) &&
      var kw := GroupArgs(Names(sc.pattern), line, env);
      && FromString(sc, line, lib) == Construct(sc.kind, kw, sc.casts, lib)
      && (FromString(sc, line, lib).Ok? <==>
            forall i :: 0 <= i < |kw| ==> Converted(kw[i].0, kw[i].1, sc.casts, lib).Ok?)
      && (FromString(sc, line, lib).Ok? ==>
            && Keys(FromString(sc, line, lib).value.fields) == Names(sc.pattern)
            && forall i :: 0 <= i < |kw| ==>
                 FromString(sc, line, lib).value.fields[i] ==
                   (kw[i].0, Converted(kw[i].0, kw[i].1, sc.casts, lib).value))
  {
    MatchShape(sc.pattern, line, 0, map[]);
    var env := Match(sc.pattern, line, 0, map[]).value.0;
    var kw := GroupArgs(Names(sc.pattern), line, env);
    assert Distinct(kw) by {
      forall i, j | 0 <= i < j < |kw| ensures kw[i].0 != kw[j].0 {
        assert kw[i].0 == Keys(kw)[i] && kw[j].0 == Keys(kw)[j];
      }
    }
    ConstructOk(sc.kind, kw, sc.casts, lib);
    if Construct(sc.kind, kw, sc.casts, lib).Ok? {
      ConstructFields(sc.kind, kw, sc.casts, lib);
    }
  }

  /**
   * The attribute a matching line gives a record: a group of the pattern
   * holds its cast value (None when the group took no part), and a name
   * that is no group of the pattern is not an attribute.
   */
  lemma FromStringLookup(sc: Schema, line: string, lib: NetLib, n: string)
    requires WellFormed(sc) && FromString(sc, line, lib).Ok?
    ensures Match(sc.pattern, line, 0, map[]).Some?
    ensures var env := Match(sc.pattern, line, 0, map[]).value.0;
      && SpansIn(env, |line|)
      && (n !in Names(sc.pattern) ==> Lookup(FromString(sc, line, lib).value.fields, n).None?)
      && (n in Names(sc.pattern) ==>
            && Converted(n, GroupValue(line, env, n), sc.casts, lib).Ok?
            && Lookup(FromString(sc, line, lib).value.fields, n) ==
                 Some(Converted(n, GroupValue(line, env, n), sc.casts, lib).value))
  {
    FromStringFields(sc, line, lib);
    var env := Match(sc.pattern, line, 0, map[]).value.0;
    var kw := GroupArgs(Names(sc.pattern), line, env);
    GroupLookup(Names(sc.pattern), line, env, n);
    GroupArgsDistinct(Names(sc.pattern), line, env);
    ConstructLookup(sc.kind, kw, sc.casts, lib, n);
  }

  /** A group the cast table does not name holds the text it captured. */
  lemma UncastGroup(sc: Schema, line: string, lib: NetLib, n: string, a: nat, b: nat)
    requires WellFormed(sc) && FromString(sc, line, lib).Ok? && n in Names(sc.pattern) && n !in sc.casts
    requires Match(sc.pattern, line, 0, map[]).Some? ==>
      n in Match(sc.pattern, line, 0, map[]).value.0 && Match(sc.pattern, line, 0, map[]).value.0[n] == (a, b)
    requires a <= b <= |line|
    ensures Lookup(FromString(sc, line, lib).value.fields, n) == Some(Text(line[a..b]))
  {
    FromStringLookup(sc, line, lib, n);
  }

  /** The kind of value a converter produces. */
  predicate Produces(c: Cast, v: Value) {
    match c
    case IntCast => v.Int? && v.num >= 0
    case NetworkCast => v.Network?
    case AddressCast => v.Address?
    case EuiCast => v.Mac?
    case TextCast => v.Text?
  }

  /**
   * Each group of a parsed record holds a value of its converter's kind,
   * or text when the cast table does not name it; it holds None only when
   * the group took no part, which a required group always does.
   */
  lemma FieldValue(sc: Schema, line: string, lib: NetLib, n: string)
    requires WellFormed(sc) && FromString(sc, line, lib).Ok? && n in Names(sc.pattern)
    ensures Lookup(FromString(sc, line, lib).value.fields, n).Some?
    ensures var v := Lookup(FromString(sc, line, lib).value.fields, n).value;
      && (v != Null && n in sc.casts ==> Produces(sc.casts[n], v))
      && (v != Null && n !in sc.casts ==> v.Text?)
      && (n in Required(sc.pattern) ==> v != Null)
  {
    FromStringLookup(sc, line, lib, n);
    MatchBindsRequired(sc.pattern, line, 0, map[]);
  }

  /**
   * A kind whose every cast is int on a group that only captures digits
   * parses every line its pattern matches.
   */
  lemma DigitCastsParse(sc: Schema, line: string, lib: NetLib, cm: map<string, CharClass>)
    requires WellFormed(sc) && Classed(sc.pattern, cm)
    requires forall n :: n in sc.casts ==> sc.casts[n] == IntCast && n in cm && cm[n] == Digit
    ensures FromString(sc, line, lib).Ok? <==> Match(sc.pattern, line, 0, map[]).Some?
  {
    if Match(sc.pattern, line, 0, map[]).Some? {
      FromStringFields(sc, line, lib);
      var env := Match(sc.pattern, line, 0, map[]).value.0;
      var kw := GroupArgs(Names(sc.pattern), line, env);
      forall i | 0 <= i < |kw| ensures Converted(kw[i].0, kw[i].1, sc.casts, lib).Ok? {
        if kw[i].0 in sc.casts {
          DigitCastSucceeds(sc, line, lib, cm, kw[i].0);
        }
      }
    }
  }

  lemma GroupArgsDistinct(names: seq<string>, s: string, env: Env)
    requires SpansIn(env, |s|) && NoDuplicates(names)
    ensures Distinct(GroupArgs(names, s, env))
  {
    var kw := GroupArgs(names, s, env);
    forall i, j | 0 <= i < j < |kw| ensures kw[i].0 != kw[j].0 {
      assert kw[i].0 == Keys(kw)[i] && kw[j].0 == Keys(kw)[j];
    }
  }

  /** The keyword argument group n contributes. */
  lemma GroupLookup(names: seq<string>, s: string, env: Env, n: string)
    requires SpansIn(env, |s|) && NoDuplicates(names)
    ensures n !in names ==> Lookup(GroupArgs(names, s, env), n).None?
    ensures n in names ==> Lookup(GroupArgs(names, s, env), n) == Some(GroupValue(s, env, n))
  {
    var kw := GroupArgs(names, s, env);
    assert forall i :: 0 <= i < |kw| ==> kw[i].0 == Keys(kw)[i] == names[i];
    if n in names {
      var i :| 0 <= i < |names| && names[i] == n;
      GroupArgsDistinct(names, s, env);
      LookupAt(kw, i);
    }
  }

  /**
   * A group cast with int whose every capture is a non-empty run of digits
   * never makes construction fail.
   */
  lemma DigitCastSucceeds(sc: Schema, line: string, lib: NetLib, cm: map<string, CharClass>, n: string)
    requires Classed(sc.pattern, cm) && Match(sc.pattern, line, 0, map[]).Some?
    requires n in sc.casts && sc.casts[n] == IntCast && n in cm && cm[n] == Digit
    ensures SpansIn(Match(sc.pattern, line, 0, map[]).value.0, |line|)
    ensures Converted(n, GroupValue(line, Match(sc.pattern, line, 0, map[]).value.0, n), sc.casts, lib).Ok?
  {
    MatchInBounds(sc.pattern, line, 0, map[]);
    MatchFits(sc.pattern, line, 0, map[], cm);
    var env := Match(sc.pattern, line, 0, map[]).value.0;
    if n in env {
      var t := Captured(line, env[n]);
      assert forall i :: 0 <= i < |t| ==> t[i] == line[env[n].0 + i];
      assert t != [] && AllDigits(t);
    }
  }

  /**
   * When a line matches, parsing can only fail in a converter, and never
   * in an int cast of a group that captures digits only: the exception is
   * the cast failure of a group the table names.
   */
  lemma MatchedFailure(sc: Schema, line: string, lib: NetLib, cm: map<string, CharClass>)
    requires WellFormed(sc) && Classed(sc.pattern, cm)
    requires Match(sc.pattern, line, 0, map[]).Some? && FromString(sc, line, lib).Err?
    ensures FromString(sc, line, lib).error.CastFailure?
    ensures var k := FromString(sc, line, lib).error.key;
      k in sc.casts && !(sc.casts[k] == IntCast && k in cm && cm[k] == Digit)
  {
    MatchInBounds(sc.pattern, line, 0, map[]);
    var env := Match(sc.pattern, line, 0, map[]).value.0;
    var names := Names(sc.pattern);
    var kw := GroupArgs(names, line, env);
    assert FromString(sc, line, lib) == Construct(sc.kind, kw, sc.casts, lib);
    var j := FailingArgument(sc.kind, kw, sc.casts, lib);
    var n := kw[j].0;
    assert n == names[j] && kw[j].1 == GroupValue(line, env, n) by {
      assert Keys(kw)[j] == kw[j].0;
    }
    if sc.casts[n] == IntCast && n in cm && cm[n] == Digit {
      DigitCastSucceeds(sc, line, lib, cm, n);
      assert false;
    }
  }

  /** The argument whose conversion raised the exception construction reports. */
  lemma FailingArgument(kind: string, kw: Dict<Value>, casts: map<string, Cast>, lib: NetLib) returns (j: nat)
    requires Construct(kind, kw, casts, lib).Err?
    ensures j < |kw| && Converted(kw[j].0, kw[j].1, casts, lib).Err?
    ensures Construct(kind, kw, casts, lib).error == Converted(kw[j].0, kw[j].1, casts, lib).error
  {
    ConstructOk(kind, kw, casts, lib);
    var i :| 0 <= i < |kw| && Converted(kw[i].0, kw[i].1, casts, lib).Err?;
    j := FirstFailure(kw, casts, lib, i);
    ConstructFirstError(kind, kw, casts, lib, j);
  }

  // -----------------------------------------------------------------------
  // Query arguments

  /** An argument of `get`: a string, or the callable passed as `filt`. */
  datatype Arg = Str(str: string) | Callable(call: Record -> bool)

  /**
   * `_unwind(*args, **kwargs)`: the positional arguments, then each keyword
   * as its name followed by its value.
   */
  function Unwind(args: seq<Arg>, kwargs: Dict<Arg>): (argv: seq<Arg>)
    ensures |argv| == |args| + 2 * |kwargs|
    ensures argv[..|args|] == args
    ensures forall i :: 0 <= i < |kwargs| ==>
      argv[|args| + 2 * i] == Str(kwargs[i].0) && argv[|args| + 2 * i + 1] == kwargs[i].1
    decreases |kwargs|
  {
    if kwargs == [] then args
    else
      var argv := Unwind(args + [Str(kwargs[0].0), kwargs[0].1], kwargs[1..]);
      assert argv[..|args|] == argv[..|args| + 2][..|args|];
      forall i | 1 <= i < |kwargs|
        ensures argv[|args| + 2 * i] == Str(kwargs[i].0) && argv[|args| + 2 * i + 1] == kwargs[i].1
      {
        assert kwargs[i] == kwargs[1..][i - 1];
        assert |args + [Str(kwargs[0].0), kwargs[0].1]| + 2 * (i - 1) == |args| + 2 * i;
      }
      argv
  }

  /** The argument list `get` hands to the tool: `filt` is popped first. */
  function ToolArgs(args: seq<Arg>, kwargs: Dict<Arg>): seq<Arg> {
    Unwind(args, Remove(kwargs, "filt"))
  }

  /** `filt(record)`; the default filter keeps everything, a string cannot be called. */
  function Keep(filt: Option<Arg>, rec: Record): (r: Result<bool, Error>)
    ensures filt.None? ==> r == Ok(true)
    ensures filt.Some? && filt.value.Callable? ==> r == Ok(filt.value.call(rec))
    ensures filt.Some? && filt.value.Str? ==> r.Err? && r.error.TypeError?
  {
    match filt
    case None => Ok(true)
    case Some(Callable(f)) => Ok(f(rec))
    case Some(Str(_)) => Err(TypeError("filt is not callable"))
  }

  /**
   * `[i for i in (from_string(l) for l in lines) if filt(i)]`: each line is
   * parsed and then filtered before the next is read; the first exception
   * ends the query.
   */
  function Collect(sc: Schema, lib: NetLib, lines: seq<string>, filt: Option<Arg>): Result<seq<Record>, Error>
  {
    if lines == [] then Ok([])
    else
      match FromString(sc, lines[0], lib)
      case Err(e) => Err(e)
      case Ok(rec) =>
        match Keep(filt, rec)
        case Err(e) => Err(e)
        case Ok(keep) =>
          match Collect(sc, lib, lines[1..], filt)
          case Err(e) => Err(e)
          case Ok(rest) => Ok(if keep then [rec] + rest else rest)
  }

  /** `cls.get(*args, **kwargs)` against a tool that prints `tool(argv)`. */
  function Get(sc: Schema, lib: NetLib, tool: seq<Arg> -> seq<string>, args: seq<Arg>, kwargs: Dict<Arg>): Result<seq<Record>, Error>
  {
    Collect(sc, lib, tool(ToolArgs(args, kwargs)), Lookup(kwargs, "filt"))
  }

  // -----------------------------------------------------------------------
  // What a query promises

  /** Every line parsed, in order: `[from_string(l) for l in lines]`. */
  function ParseAll(sc: Schema, lib: NetLib, lines: seq<string>): (r: Result<seq<Record>, Error>)
    ensures r.Ok? <==> forall i :: 0 <= i < |lines| ==> FromString(sc, lines[i], lib).Ok?
    ensures r.Ok? ==> (|r.value| == |lines| &&
      forall i :: 0 <= i < |lines| ==> r.value[i] == FromString(sc, lines[i], lib).value)
  {
    if lines == [] then Ok([])
    else
      match FromString(sc, lines[0], lib)
      case Err(e) => Err(e)
      case Ok(rec) =>
        var rest := ParseAll(sc, lib, lines[1..]);
        assert forall i :: 1 <= i < |lines| ==> lines[i] == lines[1..][i - 1];
        match rest
        case Err(e) => Err(e)
        case Ok(recs) => Ok([rec] + recs)
  }

  /** The records that pass f, in their original order. */
  function Kept(recs: seq<Record>, f: Record -> bool): (r: seq<Record>)
    ensures |r| <= |recs|
    ensures forall x :: x in r <==> x in recs && f(x)
  {
    if recs == [] then []
    else if f(recs[0]) then [recs[0]] + Kept(recs[1..], f)
    else Kept(recs[1..], f)
  }

  /**
   * When every line parses and the filter can be called, the query returns
   * exactly the parsed records that pass the filter, in the order the tool
   * printed their lines; without a filter it returns them all.
   */
  lemma {:induction false} CollectSelects(sc: Schema, lib: NetLib, lines: seq<string>, filt: Option<Arg>)
    requires ParseAll(sc, lib, lines).Ok?
    requires filt.None? || filt.value.Callable?
    ensures filt.None? ==> Collect(sc, lib, lines, filt) == ParseAll(sc, lib, lines)
    ensures filt.Some? ==> Collect(sc, lib, lines, filt) == Ok(Kept(ParseAll(sc, lib, lines).value, filt.value.call))
  {
    if lines != [] {
      CollectSelects(sc, lib, lines[1..], filt);
      assert ParseAll(sc, lib, lines).value[1..] == ParseAll(sc, lib, lines[1..]).value;
    }
  }

  /** A single line the kind cannot parse makes the whole query fail. */
  lemma {:induction false} CollectFails(sc: Schema, lib: NetLib, lines: seq<string>, filt: Option<Arg>, i: nat)
    requires i < |lines| && FromString(sc, lines[i], lib).Err?
    ensures Collect(sc, lib, lines, filt).Err?
  {
    if i > 0 {
      assert lines[1..][i - 1] == lines[i];
      CollectFails(sc, lib, lines[1..], filt, i - 1);
      CollectErrTail(sc, lib, lines, filt);
    }
  }

  /** A query whose later lines fail fails as a whole. */
  lemma CollectErrTail(sc: Schema, lib: NetLib, lines: seq<string>, filt: Option<Arg>)
    requires lines != [] && Collect(sc, lib, lines[1..], filt).Err?
    ensures Collect(sc, lib, lines, filt).Err?
  {
  }

  /**
   * One batch of results after another: the first batch's exception if it
   * raised one, else the second's, else both lists in order.
   */
  function Chain(x: Result<seq<Record>, Error>, y: Result<seq<Record>, Error>): Result<seq<Record>, Error> {
    if x.Err? then x else if y.Err? then y else Ok(x.value + y.value)
  }

  /** What the query does with one parsed line h before the results of the lines after it. */
  function Step(h: Result<Record, Error>, filt: Option<Arg>, rest: Result<seq<Record>, Error>): Result<seq<Record>, Error> {
    match h
    case Err(e) => Err(e)
    case Ok(rec) =>
      match Keep(filt, rec)
      case Err(e) => Err(e)
      case Ok(keep) =>
        match rest
        case Err(e) => Err(e)
        case Ok(recs) => Ok(if keep then [rec] + recs else recs)
  }

  lemma CollectStep(sc: Schema, lib: NetLib, lines: seq<string>, filt: Option<Arg>)
    requires lines != []
    ensures Collect(sc, lib, lines, filt) == Step(FromString(sc, lines[0], lib), filt, Collect(sc, lib, lines[1..], filt))
  {
  }

  lemma StepChain(h: Result<Record, Error>, filt: Option<Arg>, x: Result<seq<Record>, Error>, y: Result<seq<Record>, Error>)
    ensures Step(h, filt, Chain(x, y)) == Chain(Step(h, filt, x), y)
  {
    if h.Ok? && Keep(filt, h.value).Ok? && x.Ok? && y.Ok? {
      assert [h.value] + x.value + y.value == [h.value] + (x.value + y.value);
    }
  }

  /**
   * Querying two batches of lines one after the other is chaining the two
   * queries: lines are parsed in order, so the first exception wins.
   */
  lemma {:induction false} CollectAppend(sc: Schema, lib: NetLib, a: seq<string>, b: seq<string>, filt: Option<Arg>)
    ensures Collect(sc, lib, a + b, filt) == Chain(Collect(sc, lib, a, filt), Collect(sc, lib, b, filt))
    decreases |a|
  {
    if a == [] {
      assert a + b == b;
      if Collect(sc, lib, b, filt).Ok? {
        assert [] + Collect(sc, lib, b, filt).value == Collect(sc, lib, b, filt).value;
      }
    } else {
      assert (a + b)[0] == a[0] && (a + b)[1..] == a[1..] + b;
      CollectAppend(sc, lib, a[1..], b, filt);
      CollectStep(sc, lib, a + b, filt);
      CollectStep(sc, lib, a, filt);
      StepChain(FromString(sc, a[0], lib), filt, Collect(sc, lib, a[1..], filt), Collect(sc, lib, b, filt));
    }
  }

  /** No keyword left after popping the filter is called `filt`. */
  lemma FilterPopped(kwargs: Dict<Arg>, i: nat)
    requires i < |Remove(kwargs, "filt")|
    ensures Remove(kwargs, "filt")[i].0 != "filt"
    ensures Remove(kwargs, "filt")[i] in kwargs
  {
  }

  /**
   * The filter never reaches the tool: the tool gets the positional
   * arguments and then two arguments, name and value, for every keyword
   * except `filt`.
   */
  lemma ToolArgsWithoutFilter(args: seq<Arg>, kwargs: Dict<Arg>)
    requires Distinct(kwargs)
    ensures |ToolArgs(args, kwargs)| ==
      |args| + 2 * (if Lookup(kwargs, "filt").Some? then |kwargs| - 1 else |kwargs|)
    ensures ToolArgs(args, kwargs)[..|args|] == args
    ensures forall i :: 0 <= i < |Remove(kwargs, "filt")| ==> ToolArgs(args, kwargs)[|args| + 2 * i] != Str("filt")
  {
    var rest := Remove(kwargs, "filt");
    var argv := Unwind(args, rest);
    assert ToolArgs(args, kwargs) == argv;
    if Lookup(kwargs, "filt").Some? {
      RemoveCount(kwargs, "filt");
    }
    forall i | 0 <= i < |rest| ensures argv[|args| + 2 * i] != Str("filt") {
      FilterPopped(kwargs, i);
      assert argv[|args| + 2 * i] == Str(rest[i].0);
    }
  }

  /** When the caller passes strings only, the tool is given strings only. */
  lemma ToolArgsAreStrings(args: seq<Arg>, kwargs: Dict<Arg>)
    requires forall a :: a in args ==> a.Str?
    requires forall i :: 0 <= i < |kwargs| && kwargs[i].0 != "filt" ==> kwargs[i].1.Str?
    ensures forall a :: a in ToolArgs(args, kwargs) ==> a.Str?
  {
    var rest := Remove(kwargs, "filt");
    forall i | 0 <= i < |rest| ensures rest[i].1.Str? {
      FilterPopped(kwargs, i);
    }
    UnwindStrings(args, rest);
  }

  lemma {:induction false} UnwindStrings(args: seq<Arg>, kwargs: Dict<Arg>)
    requires forall a :: a in args ==> a.Str?
    requires forall i :: 0 <= i < |kwargs| ==> kwargs[i].1.Str?
    ensures forall a :: a in Unwind(args, kwargs) ==> a.Str?
    decreases |kwargs|
  {
    if kwargs != [] {
      assert forall i :: 0 <= i < |kwargs| - 1 ==> kwargs[1..][i] == kwargs[i + 1];
      UnwindStrings(args + [Str(kwargs[0].0), kwargs[0].1], kwargs[1..]);
    }
  }

  /** With no arguments besides the filter, the tool is called with none. */
  lemma GetWithoutArguments(sc: Schema, lib: NetLib, tool: seq<Arg> -> seq<string>, kwargs: Dict<Arg>)
    requires forall i :: 0 <= i < |kwargs| ==> kwargs[i].0 == "filt"
    ensures Get(sc, lib, tool, [], kwargs) == Collect(sc, lib, tool([]), Lookup(kwargs, "filt"))
  {
    var rest := Remove(kwargs, "filt");
    assert forall x :: x in rest ==> x in kwargs;
  }

  // -----------------------------------------------------------------------
  // Commands

  /**
   * `shwrap(func, order)`: the tool command reached from the kind's `cmd`
   * object by the attribute path, with the keyword order its arguments
   * are passed in. Wrapping and running the command are not modelled.
   */
  datatype Command = Command(path: seq<string>, order: seq<string>)

  /** Calling a wrapped command with positional and keyword arguments. */
  datatype Invocation = Invocation(command: Command, positional: seq<Value>, kwargs: Dict<Value>)

  /**
   * The class-level cache of tool output. Its structure is not part of the
   * source; only its being cleared is modelled.
   */
  class Cache {
    var entries: map<seq<string>, seq<string>>

    constructor ()
      ensures entries == map[]
    {
      entries := map[];
    }

    method Clear()
      modifies this
      ensures entries == map[]
    {
      entries := map[];
    }
  }
}
