/**
 * Attribute values and records, the cast tables that turn captured text
 * into typed values, and the constructor every record kind shares
 * (ipyroute/base.py, `Base.__init__`).
 *
 * The netaddr types are opaque: a `NetLib` supplies the three partial
 * parse functions (`IPNetwork`, `IPAddress`, `EUI`) on text, and the
 * integer forms `IPAddress(n)` and `EUI(n)`, each giving the canonical
 * text of the parsed value (what `str()` of it returns) or None when
 * netaddr would raise.
 */
module Values {
  import opened Common
  import opened Dicts

  datatype Value =
    | Null                      // None
    | Text(text: string)        // a captured group, or any other str
    | Int(num: int)             // int(...)
    | Network(net: string)      // netaddr.IPNetwork, by its canonical text
    | Address(addr: string)     // netaddr.IPAddress
    | Mac(mac: string)          // netaddr.EUI
    | Bool(truth: bool)          // a derived attribute
    | Records(records: seq<Record>)   // a list of records (a route's nexthops)
    | Texts(texts: seq<string>)       // a list of strings (command tokens)

  /** An instance of a record kind: its class name and its `__dict__`. */
  datatype Record = Record(kind: string, fields: Dict<Value>)

  datatype NetLib = NetLib(
    network: string -> Option<string>,
    address: string -> Option<string>,
    eui: string -> Option<string>,
    addressOfInt: int -> Option<string>,   // IPAddress(n)
    euiOfInt: int -> Option<string>)       // EUI(n)

  /** The converters a cast table may name. */
  datatype Cast =
    | IntCast       // int
    | NetworkCast   // base.IPNetwork
    | AddressCast   // base.IPAddress
    | EuiCast       // base.EUI
    | TextCast      // unicode on Python 2, the identity on Python 3

  /**
   * `str(v)`. A list has no stable rendering (its elements print as object
   * addresses), so lists render as a fixed placeholder.
   */
  function Render(v: Value): (r: string)
    ensures v.Text? ==> r == v.text
    ensures v.Int? && v.num >= 0 ==> ParseInt(r) == Some(v.num)
    ensures v.Network? ==> r == v.net
    ensures v.Address? ==> r == v.addr
    ensures v.Mac? ==> r == v.mac
  {
    match v
    case Null => "None"
    case Text(t) => t
    case Int(n) =>
      if n >= 0 then ParseIntToString(n); IntToString(n) else IntToString(n)
    case Network(c) => c
    case Address(c) => c
    case Mac(c) => c
    case Bool(b) => if b then "True" else "False"
    case Records(_) => "[...]"
    case Texts(_) => "[...]"
  }

  /** The integer a value stands for when Python calls `int` on it (True is 1). */
  predicate IsIntLike(v: Value) {
    v.Int? || v.Bool?
  }

  function IntOf(v: Value): int
    requires IsIntLike(v)
  {
    if v.Int? then v.num else if v.truth then 1 else 0
  }

  /** A netaddr value handed to the converter of its own type, which copies it. */
  predicate SameNetType(c: Cast, v: Value) {
    (c == NetworkCast && v.Network?) || (c == AddressCast && v.Address?) || (c == EuiCast && v.Mac?)
  }

  /** A converter that takes an integer: `int`, `IPAddress` or `EUI` of an int or a bool. */
  function CastInt(c: Cast, key: string, n: int, lib: NetLib): Result<Value, Error>
  {
    match c
    case IntCast => Ok(Int(n))
    case AddressCast => (match lib.addressOfInt(n) case Some(x) => Ok(Address(x)) case None => Err(CastFailure(key, IntToString(n))))
    case EuiCast => (match lib.euiOfInt(n) case Some(x) => Ok(Mac(x)) case None => Err(CastFailure(key, IntToString(n))))
    case _ => Err(TypeError("cast of an integer"))
  }

  /**
   * Apply one converter to the value stored under key. Text is parsed; the
   * identity cast keeps anything; `int` keeps an int and turns a bool into
   * 0 or 1; `IPAddress` and `EUI` also read an int; a netaddr converter
   * copies a value of its own type, and `IPNetwork` reads an IPAddress as
   * its host network. What is left (a list, None, an int for `IPNetwork`)
   * raises TypeError.
   */
  function CastValue(c: Cast, key: string, v: Value, lib: NetLib): (r: Result<Value, Error>)
    ensures c == TextCast ==> r == Ok(v)
    ensures r.Ok? && c == IntCast ==> r.value.Int? && (v.Text? ==> ParseInt(v.text) == Some(r.value.num))
    ensures c == IntCast && v.Text? ==> (r.Ok? <==> v.text != [] && AllDigits(v.text))
    ensures c == IntCast && v.Int? ==> r == Ok(v)
    ensures c == IntCast && v.Bool? ==> r == Ok(Int(if v.truth then 1 else 0))
    ensures SameNetType(c, v) ==> r == Ok(v)
    ensures c == AddressCast && IsIntLike(v) ==>
      (r.Ok? <==> lib.addressOfInt(IntOf(v)).Some?) && (r.Ok? ==> r.value == Address(lib.addressOfInt(IntOf(v)).value))
    ensures c == EuiCast && IsIntLike(v) ==>
      (r.Ok? <==> lib.euiOfInt(IntOf(v)).Some?) && (r.Ok? ==> r.value == Mac(lib.euiOfInt(IntOf(v)).value))
    ensures c == NetworkCast && v.Address? ==>
      (r.Ok? <==> lib.network(v.addr).Some?) && (r.Ok? ==> r.value == Network(lib.network(v.addr).value))
    ensures r.Err? && v.Text? ==> r.error == CastFailure(key, v.text)
    ensures c != TextCast && (v.Null? || v.Records? || v.Texts?) ==> r.Err? && r.error.TypeError?
    ensures c == NetworkCast && IsIntLike(v) ==> r.Err? && r.error.TypeError?
  {
    match v
    case Text(t) =>
      (match c
       case IntCast => (match ParseInt(t) case Some(n) => Ok(Int(n)) case None => Err(CastFailure(key, t)))
       case NetworkCast => (match lib.network(t) case Some(x) => Ok(Network(x)) case None => Err(CastFailure(key, t)))
       case AddressCast => (match lib.address(t) case Some(x) => Ok(Address(x)) case None => Err(CastFailure(key, t)))
       case EuiCast => (match lib.eui(t) case Some(x) => Ok(Mac(x)) case None => Err(CastFailure(key, t)))
       case TextCast => Ok(v))
    case Int(n) => if c == TextCast then Ok(v) else CastInt(c, key, n, lib)
    case Bool(b) => if c == TextCast then Ok(v) else CastInt(c, key, if b then 1 else 0, lib)
    case Network(_) => if c == TextCast || c == NetworkCast then Ok(v) else Err(TypeError("cast of an IPNetwork"))
    case Address(a) =>
      if c == TextCast || c == AddressCast then Ok(v)
      else if c == NetworkCast then
        (match lib.network(a) case Some(x) => Ok(Network(x)) case None => Err(CastFailure(key, a)))
      else Err(TypeError("cast of an IPAddress"))
    case Mac(_) => if c == TextCast || c == EuiCast then Ok(v) else Err(TypeError("cast of an EUI"))
    case _ => if c == TextCast then Ok(v) else Err(TypeError("cast of a value of another type"))
  }

  /**
   * The netaddr converters succeed exactly when the library parses the
   * text, and then give the library's canonical form.
   */
  lemma NetCasts(key: string, v: Value, lib: NetLib)
    requires v.Text?
    ensures CastValue(NetworkCast, key, v, lib).Ok? <==> lib.network(v.text).Some?
    ensures CastValue(NetworkCast, key, v, lib).Ok? ==> CastValue(NetworkCast, key, v, lib).value == Network(lib.network(v.text).value)
    ensures CastValue(AddressCast, key, v, lib).Ok? <==> lib.address(v.text).Some?
    ensures CastValue(AddressCast, key, v, lib).Ok? ==> CastValue(AddressCast, key, v, lib).value == Address(lib.address(v.text).value)
    ensures CastValue(EuiCast, key, v, lib).Ok? <==> lib.eui(v.text).Some?
    ensures CastValue(EuiCast, key, v, lib).Ok? ==> CastValue(EuiCast, key, v, lib).value == Mac(lib.eui(v.text).value)
  {
  }

  /** The value `__init__` stores for one keyword argument. */
  function Converted(key: string, v: Value, casts: map<string, Cast>, lib: NetLib): (r: Result<Value, Error>)
    ensures v == Null || key !in casts ==> r == Ok(v)
    ensures v != Null && key in casts ==> r == CastValue(casts[key], key, v, lib)
  {
    if v != Null && key in casts then CastValue(casts[key], key, v, lib) else Ok(v)
  }

  /**
   * The attribute dictionary `__init__` builds: starting from attrs, each
   * remaining keyword argument in order is converted and stored with
   * setattr. The first conversion that raises aborts construction.
   */
  function CastInto(attrs: Dict<Value>, kw: Dict<Value>, casts: map<string, Cast>, lib: NetLib): Result<Dict<Value>, Error>
    decreases |kw|
  {
    if kw == [] then Ok(attrs)
    else
      match Converted(kw[0].0, kw[0].1, casts, lib)
      case Err(e) => Err(e)
      case Ok(x) => CastInto(Put(attrs, kw[0].0, x), kw[1..], casts, lib)
  }

  /** `cls(**kw)`: a record of the given kind, or the exception a cast raised. */
  function Construct(kind: string, kw: Dict<Value>, casts: map<string, Cast>, lib: NetLib): Result<Record, Error>
  {
    match CastInto([], kw, casts, lib)
    case Ok(attrs) => Ok(Record(kind, attrs))
    case Err(e) => Err(e)
  }

  /**
   * `Base.__init__`: for each keyword argument in order, cast it when it is
   * not None and its key is in the cast table, and set it as an attribute.
   */
  method Init(kind: string, kw: Dict<Value>, casts: map<string, Cast>, lib: NetLib)
    returns (r: Result<Record, Error>)
    ensures r == Construct(kind, kw, casts, lib)
  {
    var attrs: Dict<Value> := [];
    var i := 0;
    while i < |kw|
      invariant 0 <= i <= |kw|
      invariant CastInto([], kw, casts, lib) == CastInto(attrs, kw[i..], casts, lib)
    {
      CastIntoStep(attrs, kw, i, casts, lib);
      var (key, value) := kw[i];
      if value != Null && key in casts {
        var c := CastValue(casts[key], key, value, lib);
        if c.Err? {
          return Err(c.error);
        }
        value := c.value;
      }
      assert Converted(kw[i].0, kw[i].1, casts, lib) == Ok(value);
      attrs := Put(attrs, key, value);
      i := i + 1;
    }
    return Ok(Record(kind, attrs));
  }

  /** One step of CastInto, on the arguments from i on. */
  lemma CastIntoStep(attrs: Dict<Value>, kw: Dict<Value>, i: nat, casts: map<string, Cast>, lib: NetLib)
    requires i < |kw|
    ensures Converted(kw[i].0, kw[i].1, casts, lib).Err? ==>
      CastInto(attrs, kw[i..], casts, lib) == Err(Converted(kw[i].0, kw[i].1, casts, lib).error)
    ensures Converted(kw[i].0, kw[i].1, casts, lib).Ok? ==>
      CastInto(attrs, kw[i..], casts, lib) ==
      CastInto(Put(attrs, kw[i].0, Converted(kw[i].0, kw[i].1, casts, lib).value), kw[i + 1..], casts, lib)
  {
    assert kw[i..][0] == kw[i] && kw[i..][1..] == kw[i + 1..];
  }

  // -----------------------------------------------------------------------
  // What construction promises

  /**
   * Construction succeeds exactly when every argument converts, and then
   * every key passed becomes an attribute, in the order given, holding its
   * converted value: None stays None, keys outside the cast table keep
   * their raw value, and nothing is dropped or renamed.
   */
  lemma ConstructOk(kind: string, kw: Dict<Value>, casts: map<string, Cast>, lib: NetLib)
    ensures Construct(kind, kw, casts, lib).Ok? <==>
      forall i :: 0 <= i < |kw| ==> Converted(kw[i].0, kw[i].1, casts, lib).Ok?
  {
    CastIntoOk([], kw, casts, lib);
  }

  /**
   * A constructed record has the kind asked for and exactly the keys
   * passed, in the order given, each holding its converted value.
   */
  lemma ConstructFields(kind: string, kw: Dict<Value>, casts: map<string, Cast>, lib: NetLib)
    requires Distinct(kw) && Construct(kind, kw, casts, lib).Ok?
    ensures Construct(kind, kw, casts, lib).value.kind == kind
    ensures |Construct(kind, kw, casts, lib).value.fields| == |kw|
    ensures Keys(Construct(kind, kw, casts, lib).value.fields) == Keys(kw)
    ensures forall i :: 0 <= i < |kw| ==>
      && Converted(kw[i].0, kw[i].1, casts, lib).Ok?
      && Construct(kind, kw, casts, lib).value.fields[i] == (kw[i].0, Converted(kw[i].0, kw[i].1, casts, lib).value)
  {
    CastFromEmpty(kw, casts, lib);
    var f := CastInto([], kw, casts, lib).value;
    assert Construct(kind, kw, casts, lib) == Ok(Record(kind, f));
    assert forall i :: 0 <= i < |kw| ==> f[i].0 == kw[i].0;
    SameKeys(f, kw);
  }

  /** Casting into an empty dictionary yields one converted pair per argument, in place. */
  lemma CastFromEmpty(kw: Dict<Value>, casts: map<string, Cast>, lib: NetLib)
    requires Distinct(kw) && CastInto([], kw, casts, lib).Ok?
    ensures |CastInto([], kw, casts, lib).value| == |kw|
    ensures forall i :: 0 <= i < |kw| ==>
      && Converted(kw[i].0, kw[i].1, casts, lib).Ok?
      && CastInto([], kw, casts, lib).value[i] == (kw[i].0, Converted(kw[i].0, kw[i].1, casts, lib).value)
  {
    var none: Dict<Value> := [];
    assert none + kw == kw;
    CastIntoLength(none, kw, casts, lib);
    forall i | 0 <= i < |kw|
      ensures Converted(kw[i].0, kw[i].1, casts, lib).Ok?
      ensures CastInto(none, kw, casts, lib).value[i] == (kw[i].0, Converted(kw[i].0, kw[i].1, casts, lib).value)
    {
      CastIntoValuesAt(none, kw, casts, lib, i);
    }
  }

  /** CastInto adds one pair per argument. */
  lemma CastIntoLength(attrs: Dict<Value>, kw: Dict<Value>, casts: map<string, Cast>, lib: NetLib)
    requires Distinct(attrs + kw) && CastInto(attrs, kw, casts, lib).Ok?
    ensures |CastInto(attrs, kw, casts, lib).value| == |attrs| + |kw|
  {
    CastIntoValues(attrs, kw, casts, lib);
  }

  /** One instance of CastIntoValues: the argument at i lands at |attrs| + i. */
  lemma CastIntoValuesAt(attrs: Dict<Value>, kw: Dict<Value>, casts: map<string, Cast>, lib: NetLib, i: nat)
    requires Distinct(attrs + kw) && CastInto(attrs, kw, casts, lib).Ok? && i < |kw|
    ensures |attrs| + i < |CastInto(attrs, kw, casts, lib).value|
    ensures Converted(kw[i].0, kw[i].1, casts, lib).Ok?
    ensures CastInto(attrs, kw, casts, lib).value[|attrs| + i] == (kw[i].0, Converted(kw[i].0, kw[i].1, casts, lib).value)
  {
    CastIntoValues(attrs, kw, casts, lib);
  }

  /**
   * Reading an attribute of a constructed record: a key that was passed
   * holds its converted value, a key that was not passed is absent.
   */
  lemma ConstructLookup(kind: string, kw: Dict<Value>, casts: map<string, Cast>, lib: NetLib, k: string)
    requires Distinct(kw) && Construct(kind, kw, casts, lib).Ok?
    ensures Lookup(kw, k).None? ==> Lookup(Construct(kind, kw, casts, lib).value.fields, k).None?
    ensures Lookup(kw, k).Some? ==>
      && Converted(k, Lookup(kw, k).value, casts, lib).Ok?
      && Lookup(Construct(kind, kw, casts, lib).value.fields, k) == Some(Converted(k, Lookup(kw, k).value, casts, lib).value)
  {
    ConstructFields(kind, kw, casts, lib);
    var f := Construct(kind, kw, casts, lib).value.fields;
    assert forall i :: 0 <= i < |f| ==> f[i].0 == kw[i].0;
    if Lookup(kw, k).Some? {
      var i :| 0 <= i < |kw| && kw[i] == (k, Lookup(kw, k).value);
      assert Distinct(f) by {
        forall a, b | 0 <= a < b < |f| ensures f[a].0 != f[b].0 {
          assert f[a].0 == kw[a].0 && f[b].0 == kw[b].0;
        }
      }
      LookupAt(f, i);
    }
  }

  /**
   * Every converter accepts what it produced and hands it back unchanged,
   * so a value already cast can be passed to a constructor again.
   */
  lemma CastIdempotent(c: Cast, key: string, v: Value, lib: NetLib)
    requires CastValue(c, key, v, lib).Ok?
    ensures CastValue(c, key, CastValue(c, key, v, lib).value, lib) == Ok(CastValue(c, key, v, lib).value)
  {
    var x := CastValue(c, key, v, lib).value;
    assert c == TextCast || SameNetType(c, x) || (c == IntCast && x.Int?);
  }

  /**
   * `cls(**rec.__dict__)` rebuilds the record `cls(**kw)` built: its
   * attributes, passed back as keyword arguments, convert to themselves.
   */
  lemma Reconstruct(kind: string, kw: Dict<Value>, casts: map<string, Cast>, lib: NetLib)
    requires Distinct(kw) && Construct(kind, kw, casts, lib).Ok?
    ensures Construct(kind, Construct(kind, kw, casts, lib).value.fields, casts, lib) == Construct(kind, kw, casts, lib)
  {
    ConstructFields(kind, kw, casts, lib);
    var f := Construct(kind, kw, casts, lib).value.fields;
    assert forall i :: 0 <= i < |f| ==> f[i].0 == kw[i].0;
    assert Distinct(f) by {
      forall a, b | 0 <= a < b < |f| ensures f[a].0 != f[b].0 {
        assert f[a].0 == kw[a].0 && f[b].0 == kw[b].0;
      }
    }
    forall i | 0 <= i < |f|
      ensures Converted(f[i].0, f[i].1, casts, lib) == Ok(f[i].1)
    {
      var k := kw[i].0;
      if kw[i].1 != Null && k in casts {
        CastIdempotent(casts[k], k, kw[i].1, lib);
      }
    }
    ConstructOk(kind, f, casts, lib);
    ConstructFields(kind, f, casts, lib);
    var g := Construct(kind, f, casts, lib).value.fields;
    assert g == f;
  }

  /** The first argument that fails to convert decides the exception. */
  lemma ConstructFirstError(kind: string, kw: Dict<Value>, casts: map<string, Cast>, lib: NetLib, i: nat)
    requires i < |kw| && Converted(kw[i].0, kw[i].1, casts, lib).Err?
    requires forall j :: 0 <= j < i ==> Converted(kw[j].0, kw[j].1, casts, lib).Ok?
    ensures Construct(kind, kw, casts, lib) == Err(Converted(kw[i].0, kw[i].1, casts, lib).error)
  {
    CastIntoFirstError([], kw, casts, lib, i);
  }

  lemma {:induction false} CastIntoOk(attrs: Dict<Value>, kw: Dict<Value>, casts: map<string, Cast>, lib: NetLib)
    ensures CastInto(attrs, kw, casts, lib).Ok? <==>
      forall i :: 0 <= i < |kw| ==> Converted(kw[i].0, kw[i].1, casts, lib).Ok?
    decreases |kw|
  {
    if kw != [] {
      var c := Converted(kw[0].0, kw[0].1, casts, lib);
      if c.Ok? {
        CastIntoOk(Put(attrs, kw[0].0, c.value), kw[1..], casts, lib);
        assert CastInto(attrs, kw, casts, lib) == CastInto(Put(attrs, kw[0].0, c.value), kw[1..], casts, lib);
        assert (forall i :: 0 <= i < |kw| ==> Converted(kw[i].0, kw[i].1, casts, lib).Ok?) <==>
          forall i :: 0 <= i < |kw[1..]| ==> Converted(kw[1..][i].0, kw[1..][i].1, casts, lib).Ok? by {
          assert forall i :: 1 <= i < |kw| ==> kw[i] == kw[1..][i - 1];
        }
      } else {
        assert CastInto(attrs, kw, casts, lib).Err?;
      }
    }
  }

  lemma {:induction false} CastIntoValues(attrs: Dict<Value>, kw: Dict<Value>, casts: map<string, Cast>, lib: NetLib)
    requires Distinct(attrs + kw) && CastInto(attrs, kw, casts, lib).Ok?
    ensures |CastInto(attrs, kw, casts, lib).value| == |attrs| + |kw|
    ensures CastInto(attrs, kw, casts, lib).value[..|attrs|] == attrs
    ensures forall i :: 0 <= i < |kw| ==>
      && Converted(kw[i].0, kw[i].1, casts, lib).Ok?
      && CastInto(attrs, kw, casts, lib).value[|attrs| + i] == (kw[i].0, Converted(kw[i].0, kw[i].1, casts, lib).value)
    decreases |kw|
  {
    CastIntoOk(attrs, kw, casts, lib);
    if kw != [] {
      var x := Converted(kw[0].0, kw[0].1, casts, lib).value;
      var attrs' := StoreFirst(attrs, kw, x);
      assert CastInto(attrs, kw, casts, lib) == CastInto(attrs', kw[1..], casts, lib);
      CastIntoValues(attrs', kw[1..], casts, lib);
      ValuesStep(attrs, attrs', kw, x, CastInto(attrs', kw[1..], casts, lib).value, casts, lib);
    }
  }

  lemma ValuesStep(attrs: Dict<Value>, attrs': Dict<Value>, kw: Dict<Value>, x: Value, r: Dict<Value>,
                   casts: map<string, Cast>, lib: NetLib)
    requires kw != [] && Converted(kw[0].0, kw[0].1, casts, lib) == Ok(x)
    requires attrs' == attrs + [(kw[0].0, x)]
    requires |r| == |attrs'| + |kw[1..]|
    requires r[..|attrs'|] == attrs'
    requires forall i :: 0 <= i < |kw[1..]| ==>
      && Converted(kw[1..][i].0, kw[1..][i].1, casts, lib).Ok?
      && r[|attrs'| + i] == (kw[1..][i].0, Converted(kw[1..][i].0, kw[1..][i].1, casts, lib).value)
    ensures |r| == |attrs| + |kw|
    ensures r[..|attrs|] == attrs
    ensures forall i :: 0 <= i < |kw| ==>
      && Converted(kw[i].0, kw[i].1, casts, lib).Ok?
      && r[|attrs| + i] == (kw[i].0, Converted(kw[i].0, kw[i].1, casts, lib).value)
  {
    assert r[..|attrs|] == r[..|attrs'|][..|attrs|];
    assert r[|attrs|] == r[..|attrs'|][|attrs|];
    forall i | 1 <= i < |kw|
      ensures Converted(kw[i].0, kw[i].1, casts, lib).Ok?
      ensures r[|attrs| + i] == (kw[i].0, Converted(kw[i].0, kw[i].1, casts, lib).value)
    {
      assert kw[i] == kw[1..][i - 1];
      assert |attrs'| + (i - 1) == |attrs| + i;
    }
  }

  /** Storing the first argument appends it: its key is not yet an attribute. */
  lemma StoreFirst(attrs: Dict<Value>, kw: Dict<Value>, x: Value) returns (attrs': Dict<Value>)
    requires Distinct(attrs + kw) && kw != []
    ensures attrs' == Put(attrs, kw[0].0, x) == attrs + [(kw[0].0, x)]
    ensures Distinct(attrs' + kw[1..])
  {
    assert Lookup(attrs, kw[0].0).None? by {
      forall i | 0 <= i < |attrs| ensures attrs[i].0 != kw[0].0 {
        assert (attrs + kw)[i] == attrs[i];
        assert (attrs + kw)[|attrs|] == kw[0];
      }
    }
    attrs' := attrs + [(kw[0].0, x)];
    assert forall i :: 0 <= i < |attrs + kw| ==> (attrs' + kw[1..])[i].0 == (attrs + kw)[i].0;
  }

  lemma {:induction false} CastIntoFirstError(attrs: Dict<Value>, kw: Dict<Value>, casts: map<string, Cast>, lib: NetLib, i: nat)
    requires i < |kw| && Converted(kw[i].0, kw[i].1, casts, lib).Err?
    requires forall j :: 0 <= j < i ==> Converted(kw[j].0, kw[j].1, casts, lib).Ok?
    ensures CastInto(attrs, kw, casts, lib) == Err(Converted(kw[i].0, kw[i].1, casts, lib).error)
    decreases i
  {
    if i > 0 {
      var x := Converted(kw[0].0, kw[0].1, casts, lib).value;
      assert forall j :: 0 <= j < i - 1 ==> kw[1..][j] == kw[j + 1];
      CastIntoFirstError(Put(attrs, kw[0].0, x), kw[1..], casts, lib, i - 1);
    }
  }
}
