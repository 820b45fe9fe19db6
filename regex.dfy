/**
 * The part of Python's `re` that the record kinds use, as a backtracking
 * matcher over a pattern given as data.
 *
 * A pattern is a list of items: a literal, a repetition of one character
 * class (`+`, `*`, `?` greedy, `+?` lazy) optionally captured under a
 * group name, an ordered alternation of two sub-patterns (`(a|b)`, and
 * `(a)?` as the alternation of `a` with the empty pattern), and a named
 * back-reference `(?P=name)`. `Match` explores the alternatives in exactly
 * the order Python's engine does: a greedy repetition tries its longest
 * run first and gives characters back one at a time, a lazy one starts
 * from one character, an alternation tries its first branch first. The
 * first complete path wins, and nothing after the end of the pattern is
 * looked at, which is what `regex.match` (anchored at the start, not at
 * the end) does.
 *
 * Captures are recorded as spans (start, end) of the subject, so that a
 * group's text is `s[start..end]`.
 */
module Regex {
  import opened Common

  datatype CharClass =
    | Digit      // \d
    | Space      // \s
    | NonSpace   // \S
    | Word       // \w
    | AddrChar   // [a-f\d.:]  (equivalently [0-9a-f.:])

  datatype Quant = Plus | Star | Quest | LazyPlus

  datatype Item =
    | Lit(text: string)
    | Rep(cls: CharClass, quant: Quant, capture: Option<string>)
    | Alt(first: Pat, second: Pat)
    | Ref(name: string)

  datatype Pat = End | Cons(head: Item, tail: Pat)

  type Span = (nat, nat)
  type Env = map<string, Span>

  /** `(inner)?`: greedy, so the group is tried before it is skipped. */
  function Opt(inner: Pat): Item { Alt(inner, End) }

  /**
   * `(keyword (?P<name>k+)\s*)?`, or with `\s+` (trail Plus) or `\s?`
   * (trail Quest) after the value: an optional keyword and its value.
   */
  function KeywordGroup(keyword: string, name: string, k: CharClass, trail: Quant): Item {
    Opt(Cons(Lit(keyword + " "), Cons(Rep(k, Plus, Some(name)), Cons(Rep(Space, trail, None), End))))
  }

  predicate InClass(c: char, k: CharClass) {
    match k
    case Digit => IsDigit(c)
    case Space => IsSpace(c)
    case NonSpace => !IsSpace(c)
    case Word => IsWordChar(c)
    case AddrChar => IsDigit(c) || 'a' <= c <= 'f' || c == '.' || c == ':'
  }

  function Size(p: Pat): nat {
    match p
    case End => 0
    case Cons(Alt(l, r), t) => 1 + Size(l) + Size(r) + Size(t)
    case Cons(_, t) => 1 + Size(t)
  }

  function Append(a: Pat, b: Pat): (c: Pat)
    ensures Size(c) == Size(a) + Size(b)
  {
    match a
    case End => b
    case Cons(h, t) => Cons(h, Append(t, b))
  }

  /** Group names in the order their groups open (Python's group numbering). */
  function Names(p: Pat): seq<string> {
    match p
    case End => []
    case Cons(Rep(_, _, Some(n)), t) => [n] + Names(t)
    case Cons(Alt(l, r), t) => Names(l) + Names(r) + Names(t)
    case Cons(_, t) => Names(t)
  }

  lemma {:induction false} NamesAppend(a: Pat, b: Pat)
    ensures Names(Append(a, b)) == Names(a) + Names(b)
  {
    match a
    case End =>
    case Cons(h, t) => NamesAppend(t, b);
  }

  function MinCount(q: Quant): nat { if q == Plus || q == LazyPlus then 1 else 0 }

  /**
   * How many characters of class k a repetition can take at pos: the
   * maximal run, or at most one for `?`.
   */
  function Run(s: string, pos: nat, k: CharClass, q: Quant): (n: nat)
    requires pos <= |s|
    ensures pos + n <= |s|
    ensures forall i :: pos <= i < pos + n ==> InClass(s[i], k)
    ensures q == Quest ==> n <= 1
    ensures q != Quest && pos + n < |s| ==> !InClass(s[pos + n], k)
    ensures n == 0 ==> pos == |s| || !InClass(s[pos], k)
    decreases |s| - pos
  {
    if pos == |s| || !InClass(s[pos], k) then 0
    else if q == Quest then 1
    else 1 + Run(s, pos + 1, k, q)
  }

  /** The literal t occurs in s at pos (compared character by character). */
  predicate LitAt(s: string, pos: nat, t: string)
    decreases t
  {
    t == [] || (pos < |s| && s[pos] == t[0] && LitAt(s, pos + 1, t[1..]))
  }

  /** The text s[a..b] occurs again in s at pos. */
  predicate TextAt(s: string, a: nat, b: nat, pos: nat)
    requires a <= b <= |s|
    decreases b - a
  {
    a == b || (pos < |s| && s[pos] == s[a] && TextAt(s, a + 1, b, pos + 1))
  }

  predicate SpansIn(env: Env, n: nat) {
    forall k :: k in env ==> env[k].0 <= env[k].1 <= n
  }

  function Bind(env: Env, cap: Option<string>, a: nat, b: nat): Env {
    match cap
    case None => env
    case Some(n) => env[n := (a, b)]
  }

  /** A capture inside the subject keeps every capture inside it. */
  lemma BindSpans(env: Env, cap: Option<string>, a: nat, b: nat, n: nat)
    requires SpansIn(env, n) && a <= b <= n
    ensures SpansIn(Bind(env, cap, a, b), n)
  {
  }

  /**
   * Match pattern p against s from pos with the captures env made so far.
   * Some((env', end)) is the first successful path in Python's search
   * order: its captures and the position where the pattern ended.
   */
  function Match(p: Pat, s: string, pos: nat, env: Env): Option<(Env, nat)>
    requires pos <= |s| && SpansIn(env, |s|)
    decreases Size(p), 1, 0
  {
    match p
    case End => Some((env, pos))
    case Cons(Lit(t), rest) =>
      if pos + |t| <= |s| && LitAt(s, pos, t) then Match(rest, s, pos + |t|, env) else None
    case Cons(Ref(n), rest) =>
      if n in env && pos + (env[n].1 - env[n].0) <= |s| && TextAt(s, env[n].0, env[n].1, pos)
      then Match(rest, s, pos + (env[n].1 - env[n].0), env) else None
    case Cons(Rep(k, q, cap), rest) =>
      var run := Run(s, pos, k, q);
      if run < MinCount(q) then None
      else if q == LazyPlus then TryLazy(rest, s, pos, env, cap, MinCount(q), run)
      else TryGreedy(rest, s, pos, env, cap, run, MinCount(q))
    case Cons(Alt(l, r), rest) =>
      var m := Match(Append(l, rest), s, pos, env);
      if m.Some? then m else Match(Append(r, rest), s, pos, env)
  }

  /** A greedy repetition: take k characters, then k - 1, ... down to lo. */
  function TryGreedy(rest: Pat, s: string, pos: nat, env: Env, cap: Option<string>, k: nat, lo: nat): Option<(Env, nat)>
    requires pos + k <= |s| && lo <= k && SpansIn(env, |s|)
    decreases Size(rest) + 1, 0, k
  {
    var r := Match(rest, s, pos + k, Bind(env, cap, pos, pos + k));
    if r.Some? || k == lo then r else TryGreedy(rest, s, pos, env, cap, k - 1, lo)
  }

  /** A lazy repetition: take k characters, then k + 1, ... up to hi. */
  function TryLazy(rest: Pat, s: string, pos: nat, env: Env, cap: Option<string>, k: nat, hi: nat): Option<(Env, nat)>
    requires pos + hi <= |s| && k <= hi && SpansIn(env, |s|)
    decreases Size(rest) + 1, 0, hi - k
  {
    var r := Match(rest, s, pos + k, Bind(env, cap, pos, pos + k));
    if r.Some? || k == hi then r else TryLazy(rest, s, pos, env, cap, k + 1, hi)
  }

  // -----------------------------------------------------------------------
  // Which repetition count a search settled on

  lemma {:induction false} GreedyChoice(rest: Pat, s: string, pos: nat, env: Env, cap: Option<string>, k: nat, lo: nat)
    returns (j: nat)
    requires pos + k <= |s| && lo <= k && SpansIn(env, |s|)
    ensures lo <= j <= k
    ensures TryGreedy(rest, s, pos, env, cap, k, lo) == Match(rest, s, pos + j, Bind(env, cap, pos, pos + j))
    decreases k
  {
    var r := Match(rest, s, pos + k, Bind(env, cap, pos, pos + k));
    if r.Some? || k == lo {
      j := k;
    } else {
      j := GreedyChoice(rest, s, pos, env, cap, k - 1, lo);
    }
  }

  lemma {:induction false} LazyChoice(rest: Pat, s: string, pos: nat, env: Env, cap: Option<string>, k: nat, hi: nat)
    returns (j: nat)
    requires pos + hi <= |s| && k <= hi && SpansIn(env, |s|)
    ensures k <= j <= hi
    ensures TryLazy(rest, s, pos, env, cap, k, hi) == Match(rest, s, pos + j, Bind(env, cap, pos, pos + j))
    ensures forall m :: pos + k <= m < pos + j ==> Match(rest, s, m, Bind(env, cap, pos, m)).None?
    ensures j < hi ==> Match(rest, s, pos + j, Bind(env, cap, pos, pos + j)).Some?
    decreases hi - k
  {
    var r := Match(rest, s, pos + k, Bind(env, cap, pos, pos + k));
    if r.Some? || k == hi {
      j := k;
    } else {
      j := LazyChoice(rest, s, pos, env, cap, k + 1, hi);
    }
  }

  /** Any count in range that leads to success makes the greedy search succeed. */
  lemma {:induction false} GreedyFinds(rest: Pat, s: string, pos: nat, env: Env, cap: Option<string>, k: nat, lo: nat, j: nat)
    requires pos + k <= |s| && lo <= j <= k && SpansIn(env, |s|)
    requires Match(rest, s, pos + j, Bind(env, cap, pos, pos + j)).Some?
    ensures TryGreedy(rest, s, pos, env, cap, k, lo).Some?
    decreases k
  {
    if k != j && Match(rest, s, pos + k, Bind(env, cap, pos, pos + k)).None? {
      GreedyFinds(rest, s, pos, env, cap, k - 1, lo, j);
    }
  }

  lemma {:induction false} LazyFinds(rest: Pat, s: string, pos: nat, env: Env, cap: Option<string>, k: nat, hi: nat, j: nat)
    requires pos + hi <= |s| && k <= j <= hi && SpansIn(env, |s|)
    requires Match(rest, s, pos + j, Bind(env, cap, pos, pos + j)).Some?
    ensures TryLazy(rest, s, pos, env, cap, k, hi).Some?
    decreases hi - k
  {
    if k != j && Match(rest, s, pos + k, Bind(env, cap, pos, pos + k)).None? {
      LazyFinds(rest, s, pos, env, cap, k + 1, hi, j);
    }
  }

  /**
   * A repetition settles on one count j between its minimum and its run,
   * and the pattern then continues from pos + j with s[pos..pos + j]
   * captured; with fewer characters than its minimum it fails.
   */
  lemma RepStep(k: CharClass, q: Quant, cap: Option<string>, rest: Pat, s: string, pos: nat, env: Env)
    returns (j: nat)
    requires pos <= |s| && SpansIn(env, |s|)
    ensures Run(s, pos, k, q) < MinCount(q) ==> Match(Cons(Rep(k, q, cap), rest), s, pos, env).None?
    ensures Run(s, pos, k, q) >= MinCount(q) ==>
      && MinCount(q) <= j <= Run(s, pos, k, q)
      && Match(Cons(Rep(k, q, cap), rest), s, pos, env) == Match(rest, s, pos + j, Bind(env, cap, pos, pos + j))
  {
    var run := Run(s, pos, k, q);
    j := 0;
    if run >= MinCount(q) {
      if q == LazyPlus {
        j := LazyChoice(rest, s, pos, env, cap, MinCount(q), run);
      } else {
        j := GreedyChoice(rest, s, pos, env, cap, run, MinCount(q));
      }
    }
  }

  // -----------------------------------------------------------------------
  // Shape of a successful match

  /**
   * What a successful match r of a pattern with group names `names`,
   * started at pos with captures env, looks like: it ends inside the
   * subject, keeps the captures made before it, and adds or replaces only
   * captures of its own groups, each a span inside [pos, end].
   */
  predicate Shape(names: seq<string>, s: string, pos: nat, env: Env, r: Option<(Env, nat)>) {
    r.Some? ==>
      && pos <= r.value.1 <= |s|
      && SpansIn(r.value.0, |s|)
      && (forall n :: n in env ==> n in r.value.0)
      && (forall n :: n in r.value.0 ==> n in env || n in names)
      && (forall n :: n in env && n !in names ==> r.value.0[n] == env[n])
      && (forall n :: n in r.value.0 && (n !in env || r.value.0[n] != env[n]) ==>
            pos <= r.value.0[n].0 <= r.value.0[n].1 <= r.value.1)
  }

  /** A step that consumed s[pos..mid] and captured it (or not) under cap. */
  lemma ShapeStep(names: seq<string>, inner: seq<string>, s: string, pos: nat, mid: nat, env: Env,
                  cap: Option<string>, r: Option<(Env, nat)>)
    requires pos <= mid
    requires cap.Some? ==> cap.value in names
    requires forall n :: n in inner ==> n in names
    requires Shape(inner, s, mid, Bind(env, cap, pos, mid), r)
    ensures Shape(names, s, pos, env, r)
  {
  }

  lemma {:induction false} MatchShape(p: Pat, s: string, pos: nat, env: Env)
    requires pos <= |s| && SpansIn(env, |s|)
    ensures Shape(Names(p), s, pos, env, Match(p, s, pos, env))
    decreases Size(p)
  {
    match p
    case End =>
    case Cons(Lit(t), rest) =>
      if pos + |t| <= |s| && LitAt(s, pos, t) {
        MatchShape(rest, s, pos + |t|, env);
        ShapeStep(Names(p), Names(rest), s, pos, pos + |t|, env, None, Match(rest, s, pos + |t|, env));
      }
    case Cons(Ref(n), rest) =>
      if n in env && pos + (env[n].1 - env[n].0) <= |s| && TextAt(s, env[n].0, env[n].1, pos) {
        var mid := pos + (env[n].1 - env[n].0);
        MatchShape(rest, s, mid, env);
        ShapeStep(Names(p), Names(rest), s, pos, mid, env, None, Match(rest, s, mid, env));
      }
    case Cons(Rep(k, q, cap), rest) =>
      MatchShapeRep(k, q, cap, rest, s, pos, env);
    case Cons(Alt(l, r), rest) =>
      NamesAppend(l, rest);
      NamesAppend(r, rest);
      MatchShape(Append(l, rest), s, pos, env);
      MatchShape(Append(r, rest), s, pos, env);
      var m := Match(Append(l, rest), s, pos, env);
      var m2 := Match(Append(r, rest), s, pos, env);
      ShapeStep(Names(p), Names(Append(l, rest)), s, pos, pos, env, None, m);
      ShapeStep(Names(p), Names(Append(r, rest)), s, pos, pos, env, None, m2);
  }

  lemma {:induction false} MatchShapeRep(k: CharClass, q: Quant, cap: Option<string>, rest: Pat, s: string, pos: nat, env: Env)
    requires pos <= |s| && SpansIn(env, |s|)
    ensures Shape(Names(Cons(Rep(k, q, cap), rest)), s, pos, env, Match(Cons(Rep(k, q, cap), rest), s, pos, env))
    decreases Size(rest) + 1, 1
  {
    var j := RepStep(k, q, cap, rest, s, pos, env);
    if Run(s, pos, k, q) >= MinCount(q) {
      MatchShapeRepAt(k, q, cap, rest, s, pos, env, j);
    }
  }

  lemma {:induction false} MatchShapeRepAt(k: CharClass, q: Quant, cap: Option<string>, rest: Pat, s: string, pos: nat, env: Env, j: nat)
    requires pos <= |s| && SpansIn(env, |s|) && j <= Run(s, pos, k, q)
    ensures Shape(Names(Cons(Rep(k, q, cap), rest)), s, pos, env, Match(rest, s, pos + j, Bind(env, cap, pos, pos + j)))
    decreases Size(rest) + 1, 0
  {
    var env' := Bind(env, cap, pos, pos + j);
    MatchShape(rest, s, pos + j, env');
    ShapeStep(Names(Cons(Rep(k, q, cap), rest)), Names(rest), s, pos, pos + j, env, cap, Match(rest, s, pos + j, env'));
  }

  // -----------------------------------------------------------------------
  // Groups every match binds

  /** The groups captured outside any optional part or alternation. */
  function Required(p: Pat): seq<string> {
    match p
    case End => []
    case Cons(Rep(_, _, Some(n)), t) => [n] + Required(t)
    case Cons(_, t) => Required(t)
  }

  lemma {:induction false} RequiredAppend(a: Pat, b: Pat)
    ensures forall n :: n in Required(b) ==> n in Required(Append(a, b))
  {
    match a
    case End =>
    case Cons(h, t) => RequiredAppend(t, b);
  }

  lemma {:induction false} RequiredPrefix(a: Pat, b: Pat)
    ensures forall n :: n in Required(a) ==> n in Required(Append(a, b))
  {
    match a
    case End =>
    case Cons(h, t) => RequiredPrefix(t, b);
  }

  /** A successful match binds every required group, and keeps what was bound before. */
  lemma {:induction false} MatchBindsRequired(p: Pat, s: string, pos: nat, env: Env)
    requires pos <= |s| && SpansIn(env, |s|)
    ensures Match(p, s, pos, env).Some? ==>
      forall n :: n in Required(p) || n in env ==> n in Match(p, s, pos, env).value.0
    decreases Size(p)
  {
    match p
    case End =>
    case Cons(Lit(t), rest) =>
      if pos + |t| <= |s| && LitAt(s, pos, t) {
        MatchBindsRequired(rest, s, pos + |t|, env);
      }
    case Cons(Ref(n), rest) =>
      if n in env && pos + (env[n].1 - env[n].0) <= |s| && TextAt(s, env[n].0, env[n].1, pos) {
        MatchBindsRequired(rest, s, pos + (env[n].1 - env[n].0), env);
      }
    case Cons(Rep(k, q, cap), rest) =>
      MatchBindsRequiredRep(k, q, cap, rest, s, pos, env);
    case Cons(Alt(l, r), rest) =>
      RequiredAppend(l, rest);
      RequiredAppend(r, rest);
      MatchBindsRequired(Append(l, rest), s, pos, env);
      MatchBindsRequired(Append(r, rest), s, pos, env);
  }

  lemma {:induction false} MatchBindsRequiredRep(k: CharClass, q: Quant, cap: Option<string>, rest: Pat, s: string, pos: nat, env: Env)
    requires pos <= |s| && SpansIn(env, |s|)
    ensures Match(Cons(Rep(k, q, cap), rest), s, pos, env).Some? ==>
      forall n :: n in Required(Cons(Rep(k, q, cap), rest)) || n in env ==>
        n in Match(Cons(Rep(k, q, cap), rest), s, pos, env).value.0
    decreases Size(rest) + 1, 0
  {
    var j := RepStep(k, q, cap, rest, s, pos, env);
    var whole := Match(Cons(Rep(k, q, cap), rest), s, pos, env);
    if whole.Some? {
      var env' := Bind(env, cap, pos, pos + j);
      BindSpans(env, cap, pos, pos + j, |s|);
      assert whole == Match(rest, s, pos + j, env');
      MatchBindsRequired(rest, s, pos + j, env');
      forall n | n in Required(Cons(Rep(k, q, cap), rest)) || n in env
        ensures n in whole.value.0
      {
        if !(n in env') {
          assert n in Required(rest);
        }
      }
    }
  }

  /** A pattern made only of optional parts, `(...)?(...)?...`. */
  predicate AllOptional(p: Pat) {
    match p
    case End => true
    case Cons(Alt(_, End), t) => AllOptional(t)
    case Cons(_, _) => false
  }

  /** A pattern made only of optional parts matches anywhere: each part can be skipped. */
  lemma {:induction false} OptionalMatches(p: Pat, s: string, pos: nat, env: Env)
    requires pos <= |s| && SpansIn(env, |s|) && AllOptional(p)
    ensures Match(p, s, pos, env).Some?
    decreases Size(p)
  {
    match p
    case End =>
    case Cons(Alt(l, End), rest) =>
      assert Append(End, rest) == rest;
      OptionalMatches(rest, s, pos, env);
  }

  /** Blanks, then only optional parts: this matches wherever a blank comes first. */
  lemma BlankThenOptional(opts: Pat, line: string, pos: nat, env: Env)
    requires AllOptional(opts) && pos < |line| && IsSpace(line[pos]) && SpansIn(env, |line|)
    ensures Match(Cons(Rep(Space, Plus, None), opts), line, pos, env).Some?
  {
    var m := BlankStep(opts, line, pos, env);
    OptionalMatches(opts, line, pos + m, env);
  }

  /** Blanks before a blank-free continuation: the continuation starts after some of them. */
  lemma BlankStep(opts: Pat, line: string, pos: nat, env: Env) returns (m: nat)
    requires pos < |line| && IsSpace(line[pos]) && SpansIn(env, |line|)
    ensures pos + m <= |line|
    ensures Match(Cons(Rep(Space, Plus, None), opts), line, pos, env) == Match(opts, line, pos + m, env)
  {
    assert Run(line, pos, Space, Plus) >= 1;
    m := RepStep(Space, Plus, None, opts, line, pos, env);
    assert Bind(env, None, pos, pos + m) == env;
  }

  // -----------------------------------------------------------------------
  // Captured text belongs to its group's character class

  /**
   * Every capture of a group listed in cm is made by a one-or-more
   * repetition of the class cm lists for it.
   */
  predicate Classed(p: Pat, cm: map<string, CharClass>) {
    match p
    case End => true
    case Cons(Rep(k, q, Some(n)), t) =>
      (n in cm ==> k == cm[n] && MinCount(q) == 1) && Classed(t, cm)
    case Cons(Alt(l, r), t) => Classed(l, cm) && Classed(r, cm) && Classed(t, cm)
    case Cons(_, t) => Classed(t, cm)
  }

  lemma {:induction false} ClassedAppend(a: Pat, b: Pat, cm: map<string, CharClass>)
    requires Classed(a, cm) && Classed(b, cm)
    ensures Classed(Append(a, b), cm)
  {
    match a
    case End =>
    case Cons(h, t) => ClassedAppend(t, b, cm);
  }

  /** Every capture of a group listed in cm is a non-empty run of its class. */
  predicate Fits(s: string, env: Env, cm: map<string, CharClass>) {
    forall n :: n in env && n in cm ==>
      && env[n].0 < env[n].1 <= |s|
      && forall i :: env[n].0 <= i < env[n].1 ==> InClass(s[i], cm[n])
  }

  lemma {:induction false} MatchFits(p: Pat, s: string, pos: nat, env: Env, cm: map<string, CharClass>)
    requires pos <= |s| && SpansIn(env, |s|)
    requires Classed(p, cm) && Fits(s, env, cm)
    ensures Match(p, s, pos, env).Some? ==> Fits(s, Match(p, s, pos, env).value.0, cm)
    decreases Size(p)
  {
    match p
    case End =>
    case Cons(Lit(t), rest) =>
      if pos + |t| <= |s| && LitAt(s, pos, t) {
        MatchFits(rest, s, pos + |t|, env, cm);
      }
    case Cons(Ref(n), rest) =>
      if n in env && pos + (env[n].1 - env[n].0) <= |s| && TextAt(s, env[n].0, env[n].1, pos) {
        MatchFits(rest, s, pos + (env[n].1 - env[n].0), env, cm);
      }
    case Cons(Rep(k, q, cap), rest) =>
      MatchFitsRep(k, q, cap, rest, s, pos, env, cm);
    case Cons(Alt(l, r), rest) =>
      ClassedAppend(l, rest, cm);
      ClassedAppend(r, rest, cm);
      MatchFits(Append(l, rest), s, pos, env, cm);
      MatchFits(Append(r, rest), s, pos, env, cm);
  }

  lemma {:induction false} MatchFitsRep(k: CharClass, q: Quant, cap: Option<string>, rest: Pat, s: string, pos: nat, env: Env, cm: map<string, CharClass>)
    requires pos <= |s| && SpansIn(env, |s|)
    requires Classed(Cons(Rep(k, q, cap), rest), cm) && Fits(s, env, cm)
    ensures Match(Cons(Rep(k, q, cap), rest), s, pos, env).Some? ==>
      Fits(s, Match(Cons(Rep(k, q, cap), rest), s, pos, env).value.0, cm)
    decreases Size(rest) + 1, 0
  {
    var j := RepStep(k, q, cap, rest, s, pos, env);
    if Run(s, pos, k, q) >= MinCount(q) {
      var env' := Bind(env, cap, pos, pos + j);
      BindFits(s, env, cm, k, q, cap, pos, j);
      MatchFits(rest, s, pos + j, env', cm);
    }
  }

  /** Capturing a run of at least MinCount(q) characters of class k keeps Fits. */
  lemma BindFits(s: string, env: Env, cm: map<string, CharClass>, k: CharClass, q: Quant, cap: Option<string>, pos: nat, j: nat)
    requires Fits(s, env, cm) && pos <= |s| && MinCount(q) <= j <= Run(s, pos, k, q)
    requires cap.Some? && cap.value in cm ==> k == cm[cap.value] && MinCount(q) == 1
    ensures Fits(s, Bind(env, cap, pos, pos + j), cm)
  {
  }

  /** A successful match ends inside the subject and keeps its captures inside it. */
  lemma MatchInBounds(p: Pat, s: string, pos: nat, env: Env)
    requires pos <= |s| && SpansIn(env, |s|)
    ensures Match(p, s, pos, env).Some? ==>
      pos <= Match(p, s, pos, env).value.1 <= |s| && SpansIn(Match(p, s, pos, env).value.0, |s|)
  {
    MatchShape(p, s, pos, env);
  }

  // -----------------------------------------------------------------------
  // Trailing text never makes a line fail

  lemma {:induction false} LitAtExtends(s: string, t: string, pos: nat, x: string)
    requires LitAt(s, pos, x)
    ensures LitAt(s + t, pos, x)
    decreases x
  {
    if x != [] {
      LitAtExtends(s, t, pos + 1, x[1..]);
    }
  }

  lemma {:induction false} TextAtExtends(s: string, t: string, a: nat, b: nat, pos: nat)
    requires a <= b <= |s| && TextAt(s, a, b, pos)
    ensures TextAt(s + t, a, b, pos)
    decreases b - a
  {
    if a != b {
      TextAtExtends(s, t, a + 1, b, pos + 1);
    }
  }

  lemma {:induction false} RunExtends(s: string, t: string, pos: nat, k: CharClass, q: Quant)
    requires pos <= |s|
    ensures Run(s + t, pos, k, q) >= Run(s, pos, k, q)
    decreases |s| - pos
  {
    if pos < |s| && InClass(s[pos], k) && q != Quest {
      assert (s + t)[pos] == s[pos];
      RunExtends(s, t, pos + 1, k, q);
    }
  }

  /**
   * Matching is anchored at the start only: if a pattern matches a line,
   * it still matches that line with any text appended.
   */
  lemma {:induction false} MatchExtends(p: Pat, s: string, t: string, pos: nat, env: Env)
    requires pos <= |s| && SpansIn(env, |s|)
    requires Match(p, s, pos, env).Some?
    ensures Match(p, s + t, pos, env).Some?
    decreases Size(p)
  {
    match p
    case End =>
    case Cons(Lit(x), rest) =>
      LitAtExtends(s, t, pos, x);
      MatchExtends(rest, s, t, pos + |x|, env);
    case Cons(Ref(n), rest) =>
      TextAtExtends(s, t, env[n].0, env[n].1, pos);
      MatchExtends(rest, s, t, pos + (env[n].1 - env[n].0), env);
    case Cons(Rep(k, q, cap), rest) =>
      MatchExtendsRep(k, q, cap, rest, s, t, pos, env);
    case Cons(Alt(l, r), rest) =>
      if Match(Append(l, rest), s, pos, env).Some? {
        MatchExtends(Append(l, rest), s, t, pos, env);
      } else {
        MatchExtends(Append(r, rest), s, t, pos, env);
      }
  }

  lemma {:induction false} MatchExtendsRep(k: CharClass, q: Quant, cap: Option<string>, rest: Pat, s: string, t: string, pos: nat, env: Env)
    requires pos <= |s| && SpansIn(env, |s|)
    requires Match(Cons(Rep(k, q, cap), rest), s, pos, env).Some?
    ensures Match(Cons(Rep(k, q, cap), rest), s + t, pos, env).Some?
    decreases Size(rest) + 1, 0
  {
    var j := RepStep(k, q, cap, rest, s, pos, env);
    RunExtends(s, t, pos, k, q);
    var run' := Run(s + t, pos, k, q);
    MatchExtends(rest, s, t, pos + j, Bind(env, cap, pos, pos + j));
    RepFinds(k, q, cap, rest, s + t, pos, env, j);
  }

  /** A literal is found where the subject's slice spells it. */
  lemma {:induction false} LitAtSlice(s: string, pos: nat, t: string)
    requires pos + |t| <= |s| && s[pos..pos + |t|] == t
    ensures LitAt(s, pos, t)
    decreases t
  {
    if t != [] {
      assert s[pos] == t[0];
      assert s[pos + 1..pos + 1 + |t[1..]|] == t[1..];
      LitAtSlice(s, pos + 1, t[1..]);
    }
  }

  /**
   * A greedy one-or-more repetition keeps its whole run of n characters
   * when the rest of the pattern matches after it.
   */
  lemma RepTakesAll(k: CharClass, cap: Option<string>, rest: Pat, s: string, pos: nat, n: nat, env: Env)
    requires pos <= |s| && SpansIn(env, |s|) && Run(s, pos, k, Plus) == n >= 1
    requires Match(rest, s, pos + n, Bind(env, cap, pos, pos + n)).Some?
    ensures Match(Cons(Rep(k, Plus, cap), rest), s, pos, env) == Match(rest, s, pos + n, Bind(env, cap, pos, pos + n))
  {
    assert TryGreedy(rest, s, pos, env, cap, n, 1) == Match(rest, s, pos + n, Bind(env, cap, pos, pos + n));
  }

  /**
   * `(keyword (?P<name>k+)\s+)?` followed by optional parts, where the
   * subject holds the keyword, a blank, n characters of class k and a
   * blank: the group takes part, and name captures exactly those n
   * characters.
   */
  lemma KeywordCaptures(keyword: string, name: string, k: CharClass, rest: Pat, s: string, a: nat, n: nat, env: Env)
    requires a + |keyword| + 1 + n < |s| && SpansIn(env, |s|)
    requires s[a..a + |keyword| + 1] == keyword + " "
    requires Run(s, a + |keyword| + 1, k, Plus) == n >= 1 && IsSpace(s[a + |keyword| + 1 + n])
    requires AllOptional(rest) && name !in Names(rest)
    ensures Match(Cons(KeywordGroup(keyword, name, k, Plus), rest), s, a, env).Some?
    ensures var env' := Match(Cons(KeywordGroup(keyword, name, k, Plus), rest), s, a, env).value.0;
      name in env' && env'[name] == (a + |keyword| + 1, a + |keyword| + 1 + n)
  {
    var body := Cons(Lit(keyword + " "), Cons(Rep(k, Plus, Some(name)), Cons(Rep(Space, Plus, None), rest)));
    KeywordBody(keyword, name, k, rest, s, a, n, env);
    var inner := Cons(Lit(keyword + " "), Cons(Rep(k, Plus, Some(name)), Cons(Rep(Space, Plus, None), End)));
    assert Append(Cons(Rep(Space, Plus, None), End), rest) == Cons(Rep(Space, Plus, None), Append(End, rest));
    assert Append(inner, rest) == body;
    assert Match(Cons(Alt(inner, End), rest), s, a, env) == Match(body, s, a, env);
  }

  /** The group's own text: keyword, blank, the captured run, blanks, then the optional rest. */
  lemma KeywordBody(keyword: string, name: string, k: CharClass, rest: Pat, s: string, a: nat, n: nat, env: Env)
    requires a + |keyword| + 1 + n < |s| && SpansIn(env, |s|)
    requires s[a..a + |keyword| + 1] == keyword + " "
    requires Run(s, a + |keyword| + 1, k, Plus) == n >= 1 && IsSpace(s[a + |keyword| + 1 + n])
    requires AllOptional(rest) && name !in Names(rest)
    ensures var body := Cons(Lit(keyword + " "), Cons(Rep(k, Plus, Some(name)), Cons(Rep(Space, Plus, None), rest)));
      && Match(body, s, a, env).Some?
      && name in Match(body, s, a, env).value.0
      && Match(body, s, a, env).value.0[name] == (a + |keyword| + 1, a + |keyword| + 1 + n)
  {
    var lit := keyword + " ";
    var run := Cons(Rep(k, Plus, Some(name)), Cons(Rep(Space, Plus, None), rest));
    CaptureRun(name, k, rest, s, a + |lit|, n, env);
    LitStep(lit, run, s, a, env);
  }

  /** A captured run of class k, then blanks and optional parts: the capture is the whole run. */
  lemma CaptureRun(name: string, k: CharClass, rest: Pat, s: string, t0: nat, n: nat, env: Env)
    requires t0 + n < |s| && SpansIn(env, |s|)
    requires Run(s, t0, k, Plus) == n >= 1 && IsSpace(s[t0 + n])
    requires AllOptional(rest) && name !in Names(rest)
    ensures var run := Cons(Rep(k, Plus, Some(name)), Cons(Rep(Space, Plus, None), rest));
      && Match(run, s, t0, env).Some?
      && name in Match(run, s, t0, env).value.0
      && Match(run, s, t0, env).value.0[name] == (t0, t0 + n)
  {
    BlankKeeps(name, rest, s, t0, t0 + n, env);
    RepTakesAll(k, Some(name), Cons(Rep(Space, Plus, None), rest), s, t0, n, env);
  }

  /** Blanks and optional parts after a capture leave the capture alone. */
  lemma BlankKeeps(name: string, rest: Pat, s: string, t0: nat, t1: nat, env: Env)
    requires t0 <= t1 < |s| && IsSpace(s[t1]) && SpansIn(env, |s|)
    requires AllOptional(rest) && name !in Names(rest)
    ensures var env1 := Bind(env, Some(name), t0, t1);
      && Match(Cons(Rep(Space, Plus, None), rest), s, t1, env1).Some?
      && name in Match(Cons(Rep(Space, Plus, None), rest), s, t1, env1).value.0
      && Match(Cons(Rep(Space, Plus, None), rest), s, t1, env1).value.0[name] == (t0, t1)
  {
    var blank := Cons(Rep(Space, Plus, None), rest);
    var env1 := Bind(env, Some(name), t0, t1);
    BlankThenOptional(rest, s, t1, env1);
    MatchShape(blank, s, t1, env1);
    assert Names(blank) == Names(rest);
  }

  /** A literal the subject spells at pos is consumed. */
  lemma LitStep(t: string, rest: Pat, s: string, pos: nat, env: Env)
    requires pos + |t| <= |s| && s[pos..pos + |t|] == t && SpansIn(env, |s|)
    ensures Match(Cons(Lit(t), rest), s, pos, env) == Match(rest, s, pos + |t|, env)
  {
    LitAtSlice(s, pos, t);
  }

  /** A repetition matches when some admissible count lets the rest match. */
  lemma RepFinds(k: CharClass, q: Quant, cap: Option<string>, rest: Pat, s: string, pos: nat, env: Env, j: nat)
    requires pos <= |s| && SpansIn(env, |s|) && MinCount(q) <= j <= Run(s, pos, k, q)
    requires Match(rest, s, pos + j, Bind(env, cap, pos, pos + j)).Some?
    ensures Match(Cons(Rep(k, q, cap), rest), s, pos, env).Some?
  {
    var run := Run(s, pos, k, q);
    if q == LazyPlus {
      LazyFinds(rest, s, pos, env, cap, MinCount(q), run, j);
    } else {
      GreedyFinds(rest, s, pos, env, cap, run, MinCount(q), j);
    }
  }

  /** n characters of class k, then the end or a character outside it: the run is n long. */
  lemma {:induction false} RunIs(s: string, pos: nat, k: CharClass, q: Quant, n: nat)
    requires q != Quest && pos + n <= |s|
    requires forall i :: pos <= i < pos + n ==> InClass(s[i], k)
    requires pos + n < |s| ==> !InClass(s[pos + n], k)
    ensures Run(s, pos, k, q) == n
    decreases n
  {
    if n > 0 {
      RunIs(s, pos + 1, k, q, n - 1);
    }
  }

  /** An alternation matches when either branch, followed by the rest, does. */
  lemma AltFinds(l: Pat, r: Pat, rest: Pat, s: string, pos: nat, env: Env)
    requires pos <= |s| && SpansIn(env, |s|)
    requires Match(Append(l, rest), s, pos, env).Some? || Match(Append(r, rest), s, pos, env).Some?
    ensures Match(Cons(Alt(l, r), rest), s, pos, env).Some?
  {
  }

  /** A literal is not found where the subject differs from it at some offset i. */
  lemma {:induction false} LitAtDiffers(s: string, pos: nat, t: string, i: nat)
    requires i < |t| && pos + i < |s| && s[pos + i] != t[i]
    ensures !LitAt(s, pos, t)
    decreases i
  {
    if i > 0 {
      LitAtDiffers(s, pos + 1, t[1..], i - 1);
    }
  }

  /** An optional part whose body cannot match here is skipped. */
  lemma OptSkipped(inner: Pat, rest: Pat, s: string, pos: nat, env: Env)
    requires pos <= |s| && SpansIn(env, |s|)
    requires Match(Append(inner, rest), s, pos, env).None?
    ensures Match(Cons(Opt(inner), rest), s, pos, env) == Match(rest, s, pos, env)
  {
    assert Append(End, rest) == rest;
  }

  /** `(t...)?` where the subject does not spell t: the part is skipped. */
  lemma OptLitAbsent(t: string, inner: Pat, rest: Pat, s: string, pos: nat, env: Env)
    requires pos <= |s| && SpansIn(env, |s|) && !LitAt(s, pos, t)
    ensures Match(Cons(Opt(Cons(Lit(t), inner)), rest), s, pos, env) == Match(rest, s, pos, env)
  {
    assert Append(Cons(Lit(t), inner), rest) == Cons(Lit(t), Append(inner, rest));
    OptSkipped(Cons(Lit(t), inner), rest, s, pos, env);
  }

  /**
   * `(keyword (?P<name>k+)\s+)?` where the keyword and a blank are there,
   * but neither the character ending the run of class k nor any inside it
   * is a blank: no count of the repetition can be followed by `\s+`, so
   * the group is skipped.
   */
  lemma KeywordUnended(keyword: string, name: string, k: CharClass, rest: Pat, s: string, pos: nat, env: Env)
    requires pos + |keyword| + 1 <= |s| && SpansIn(env, |s|)
    requires s[pos..pos + |keyword| + 1] == keyword + " "
    requires var v := pos + |keyword| + 1;
      && v + Run(s, v, k, Plus) < |s|
      && forall i :: v < i <= v + Run(s, v, k, Plus) ==> !IsSpace(s[i])
    ensures Match(Cons(KeywordGroup(keyword, name, k, Plus), rest), s, pos, env) == Match(rest, s, pos, env)
  {
    var body := Cons(Lit(keyword + " "), Cons(Rep(k, Plus, Some(name)), Cons(Rep(Space, Plus, None), End)));
    KeywordBodyUnended(keyword, name, k, rest, s, pos, env);
    OptSkipped(body, rest, s, pos, env);
  }

  lemma KeywordBodyUnended(keyword: string, name: string, k: CharClass, rest: Pat, s: string, pos: nat, env: Env)
    requires pos + |keyword| + 1 <= |s| && SpansIn(env, |s|)
    requires s[pos..pos + |keyword| + 1] == keyword + " "
    requires var v := pos + |keyword| + 1;
      && v + Run(s, v, k, Plus) < |s|
      && forall i :: v < i <= v + Run(s, v, k, Plus) ==> !IsSpace(s[i])
    ensures var body := Cons(Lit(keyword + " "), Cons(Rep(k, Plus, Some(name)), Cons(Rep(Space, Plus, None), End)));
      Match(Append(body, rest), s, pos, env).None?
  {
    var value := Cons(Rep(k, Plus, Some(name)), Cons(Rep(Space, Plus, None), rest));
    BodyAppend(keyword, name, k, Plus, rest);
    ValueUnended(name, k, rest, s, pos + |keyword| + 1, env);
    LitStep(keyword + " ", value, s, pos, env);
  }

  lemma BodyAppend(keyword: string, name: string, k: CharClass, trail: Quant, rest: Pat)
    ensures Append(Cons(Lit(keyword + " "), Cons(Rep(k, Plus, Some(name)), Cons(Rep(Space, trail, None), End))), rest) ==
      Cons(Lit(keyword + " "), Cons(Rep(k, Plus, Some(name)), Cons(Rep(Space, trail, None), rest)))
  {
    assert Append(Cons(Rep(Space, trail, None), End), rest) == Cons(Rep(Space, trail, None), rest);
  }

  /** `(?P<name>k+)\s+` where no blank ends the run of class k or lies inside it: no match. */
  lemma ValueUnended(name: string, k: CharClass, rest: Pat, s: string, v: nat, env: Env)
    requires v <= |s| && SpansIn(env, |s|)
    requires v + Run(s, v, k, Plus) < |s|
    requires forall i :: v < i <= v + Run(s, v, k, Plus) ==> !IsSpace(s[i])
    ensures Match(Cons(Rep(k, Plus, Some(name)), Cons(Rep(Space, Plus, None), rest)), s, v, env).None?
  {
    var blank := Cons(Rep(Space, Plus, None), rest);
    var j := RepStep(k, Plus, Some(name), blank, s, v, env);
    if Run(s, v, k, Plus) >= 1 {
      assert !IsSpace(s[v + j]);
      var m := RepStep(Space, Plus, None, rest, s, v + j, Bind(env, Some(name), v, v + j));
    }
  }

  /**
   * A lazy repetition settles on the smallest count j from which the rest
   * of the pattern matches (or on its whole run when none does): every
   * smaller count fails.
   */
  lemma LazyStep(k: CharClass, cap: Option<string>, rest: Pat, s: string, pos: nat, env: Env)
    returns (j: nat)
    requires pos <= |s| && SpansIn(env, |s|) && Run(s, pos, k, LazyPlus) >= 1
    ensures 1 <= j <= Run(s, pos, k, LazyPlus)
    ensures Match(Cons(Rep(k, LazyPlus, cap), rest), s, pos, env) == Match(rest, s, pos + j, Bind(env, cap, pos, pos + j))
    ensures forall m :: pos + 1 <= m < pos + j ==> Match(rest, s, m, Bind(env, cap, pos, m)).None?
    ensures j < Run(s, pos, k, LazyPlus) ==> Match(rest, s, pos + j, Bind(env, cap, pos, pos + j)).Some?
  {
    j := LazyChoice(rest, s, pos, env, cap, 1, Run(s, pos, k, LazyPlus));
  }

  /**
   * A lazy repetition stops at the first count whose continuation
   * matches: when every count before stop fails and stop succeeds, the
   * match is the one after stop.
   */
  lemma LazyStops(k: CharClass, cap: Option<string>, rest: Pat, s: string, pos: nat, env: Env, stop: nat)
    requires pos < stop <= |s| && stop - pos <= Run(s, pos, k, LazyPlus) && SpansIn(env, |s|)
    requires forall m {:trigger Match(rest, s, m, Bind(env, cap, pos, m))} ::
      pos + 1 <= m < stop ==> Match(rest, s, m, Bind(env, cap, pos, m)).None?
    requires Match(rest, s, stop, Bind(env, cap, pos, stop)).Some?
    ensures Match(Cons(Rep(k, LazyPlus, cap), rest), s, pos, env) == Match(rest, s, stop, Bind(env, cap, pos, stop))
  {
    var j := LazyStep(k, cap, rest, s, pos, env);
  }

  // -----------------------------------------------------------------------
  // Where a match goes on after a blank-free token

  /** q is the first blank of s at or after a. */
  predicate FirstBlank(s: string, a: nat, q: nat) {
    a <= q < |s| && IsSpace(s[q]) && forall i :: a <= i < q ==> !IsSpace(s[i])
  }

  /** A run of non-blanks from a ends at the first blank. */
  lemma RunToBlank(s: string, a: nat, q: nat)
    requires FirstBlank(s, a, q)
    ensures Run(s, a, NonSpace, Plus) == q - a
    ensures Run(s, a, NonSpace, LazyPlus) == q - a
  {
    var n := Run(s, a, NonSpace, Plus);
    if n < q - a {
      assert false;
    }
    var m := Run(s, a, NonSpace, LazyPlus);
    if m < q - a {
      assert false;
    }
  }

  /**
   * `c ` (a non-blank character, then a blank) read at p, at or before
   * the first blank q: it can only be found just before q, and the rest
   * of the pattern then goes on right after q.
   */
  lemma PairThen(c: char, rest: Pat, s: string, a: nat, p: nat, q: nat, env: Env)
    requires FirstBlank(s, a, q) && a <= p <= q && !IsSpace(c) && SpansIn(env, |s|)
    ensures Match(Cons(Lit([c, ' ']), rest), s, p, env).Some? ==>
      p + 1 == q && Match(Cons(Lit([c, ' ']), rest), s, p, env) == Match(rest, s, q + 1, env)
  {
    var t := [c, ' '];
    if p + 2 <= |s| && LitAt(s, p, t) {
      assert t[1..] == [' '];
      assert s[p] == c && LitAt(s, p + 1, [' ']);
    }
  }

  /**
   * `(?P<cap>\S+)c ` read at a, before the first blank q: the token can
   * only end at q - 1, and the rest goes on right after q with the token
   * s[a..q - 1] captured.
   */
  lemma TokenPairThen(c: char, cap: Option<string>, rest: Pat, s: string, a: nat, q: nat, env: Env)
    requires FirstBlank(s, a, q) && !IsSpace(c) && SpansIn(env, |s|)
    ensures Match(Cons(Rep(NonSpace, Plus, cap), Cons(Lit([c, ' ']), rest)), s, a, env).Some? ==>
      && a + 2 <= q
      && Match(Cons(Rep(NonSpace, Plus, cap), Cons(Lit([c, ' ']), rest)), s, a, env) ==
         Match(rest, s, q + 1, Bind(env, cap, a, q - 1))
  {
    RunToBlank(s, a, q);
    var j := RepStep(NonSpace, Plus, cap, Cons(Lit([c, ' ']), rest), s, a, env);
    if q - a >= 1 {
      PairThen(c, rest, s, a, a + j, q, Bind(env, cap, a, a + j));
    }
  }

  /** The converse: a token ending just before c and the blank q is taken when the rest matches after q. */
  lemma TokenPairFinds(c: char, cap: Option<string>, rest: Pat, s: string, a: nat, q: nat, env: Env)
    requires FirstBlank(s, a, q) && a + 2 <= q && s[q - 1] == c && s[q] == ' ' && SpansIn(env, |s|)
    requires Match(rest, s, q + 1, Bind(env, cap, a, q - 1)).Some?
    ensures Match(Cons(Rep(NonSpace, Plus, cap), Cons(Lit([c, ' ']), rest)), s, a, env).Some?
  {
    var env' := Bind(env, cap, a, q - 1);
    var t := [c, ' '];
    assert LitAt(s, q - 1, t) by {
      assert t[1..] == [' '];
      assert LitAt(s, q, [' ']);
    }
    assert Match(Cons(Lit(t), rest), s, q - 1, env') == Match(rest, s, q + 1, env');
    RunToBlank(s, a, q);
    RepFinds(NonSpace, Plus, cap, Cons(Lit(t), rest), s, a, env, q - 1 - a);
  }

  // -----------------------------------------------------------------------
  // Without back-references, whether a match succeeds does not depend on
  // the captures made before it

  predicate NoRef(p: Pat) {
    match p
    case End => true
    case Cons(Ref(_), _) => false
    case Cons(Alt(l, r), t) => NoRef(l) && NoRef(r) && NoRef(t)
    case Cons(_, t) => NoRef(t)
  }

  lemma {:induction false} NoRefAppend(a: Pat, b: Pat)
    requires NoRef(a) && NoRef(b)
    ensures NoRef(Append(a, b))
  {
    match a
    case End =>
    case Cons(h, t) => NoRefAppend(t, b);
  }

  lemma {:induction false} MatchEnvFree(p: Pat, s: string, pos: nat, env1: Env, env2: Env)
    requires pos <= |s| && SpansIn(env1, |s|) && SpansIn(env2, |s|) && NoRef(p)
    ensures Match(p, s, pos, env1).Some? == Match(p, s, pos, env2).Some?
    decreases Size(p), 1, 0
  {
    match p
    case End =>
    case Cons(Lit(t), rest) =>
      if pos + |t| <= |s| && LitAt(s, pos, t) {
        MatchEnvFree(rest, s, pos + |t|, env1, env2);
      }
    case Cons(Rep(k, q, cap), rest) =>
      var run := Run(s, pos, k, q);
      if run >= MinCount(q) {
        if q == LazyPlus {
          LazyEnvFree(rest, s, pos, env1, env2, cap, MinCount(q), run);
        } else {
          GreedyEnvFree(rest, s, pos, env1, env2, cap, run, MinCount(q));
        }
      }
    case Cons(Alt(l, r), rest) =>
      NoRefAppend(l, rest);
      NoRefAppend(r, rest);
      MatchEnvFree(Append(l, rest), s, pos, env1, env2);
      MatchEnvFree(Append(r, rest), s, pos, env1, env2);
  }

  lemma {:induction false} GreedyEnvFree(rest: Pat, s: string, pos: nat, env1: Env, env2: Env, cap: Option<string>, k: nat, lo: nat)
    requires pos + k <= |s| && lo <= k && SpansIn(env1, |s|) && SpansIn(env2, |s|) && NoRef(rest)
    ensures TryGreedy(rest, s, pos, env1, cap, k, lo).Some? == TryGreedy(rest, s, pos, env2, cap, k, lo).Some?
    decreases Size(rest) + 1, 0, k
  {
    MatchEnvFree(rest, s, pos + k, Bind(env1, cap, pos, pos + k), Bind(env2, cap, pos, pos + k));
    if k > lo {
      GreedyEnvFree(rest, s, pos, env1, env2, cap, k - 1, lo);
    }
  }

  lemma {:induction false} LazyEnvFree(rest: Pat, s: string, pos: nat, env1: Env, env2: Env, cap: Option<string>, k: nat, hi: nat)
    requires pos + hi <= |s| && k <= hi && SpansIn(env1, |s|) && SpansIn(env2, |s|) && NoRef(rest)
    ensures TryLazy(rest, s, pos, env1, cap, k, hi).Some? == TryLazy(rest, s, pos, env2, cap, k, hi).Some?
    decreases Size(rest) + 1, 0, hi - k
  {
    MatchEnvFree(rest, s, pos + k, Bind(env1, cap, pos, pos + k), Bind(env2, cap, pos, pos + k));
    if k < hi {
      LazyEnvFree(rest, s, pos, env1, env2, cap, k + 1, hi);
    }
  }

  // -----------------------------------------------------------------------
  // Python's groupdict() and finditer()

  /** Text of a capture. */
  function Captured(s: string, sp: Span): string
    requires sp.0 <= sp.1 <= |s|
  {
    s[sp.0..sp.1]
  }

  datatype Found = Found(env: Env, start: nat, end: nat)

  /** Position q is where match f starts, or lies strictly inside it. */
  predicate Covers(f: Found, q: nat) {
    f.start == q || f.start < q < f.end
  }

  /**
   * `regex.finditer(s)` from position `from`: try a match at each position
   * left to right; after a match, continue where it ended (one character
   * later after an empty match).
   */
  function FindAll(p: Pat, s: string, from: nat): (fs: seq<Found>)
    ensures forall i :: 0 <= i < |fs| ==>
      && from <= fs[i].start <= fs[i].end <= |s|
      && Match(p, s, fs[i].start, map[]) == Some((fs[i].env, fs[i].end))
    ensures forall i :: 0 <= i < |fs| - 1 ==>
      fs[i].end <= fs[i + 1].start && fs[i].start < fs[i + 1].start
    decreases |s| - from
  {
    if from > |s| then []
    else
      MatchInBounds(p, s, from, map[]);
      var m := Match(p, s, from, map[]);
      if m.Some? then
        var next := if m.value.1 > from then m.value.1 else from + 1;
        var rest := FindAll(p, s, next);
        FoundCons(p, s, Found(m.value.0, from, m.value.1), rest, next);
        [Found(m.value.0, from, m.value.1)] + rest
      else FindAll(p, s, from + 1)
  }

  /** A match at f.start followed by matches from `next` on, past its end, are reported in order. */
  lemma FoundCons(p: Pat, s: string, f: Found, rest: seq<Found>, next: nat)
    requires f.start <= f.end <= |s| && f.end <= next && f.start < next
    requires Match(p, s, f.start, map[]) == Some((f.env, f.end))
    requires forall i :: 0 <= i < |rest| ==>
      && next <= rest[i].start <= rest[i].end <= |s|
      && Match(p, s, rest[i].start, map[]) == Some((rest[i].env, rest[i].end))
    requires forall i :: 0 <= i < |rest| - 1 ==>
      rest[i].end <= rest[i + 1].start && rest[i].start < rest[i + 1].start
    ensures var fs := [f] + rest;
      && (forall i :: 0 <= i < |fs| ==>
            && f.start <= fs[i].start <= fs[i].end <= |s|
            && Match(p, s, fs[i].start, map[]) == Some((fs[i].env, fs[i].end)))
      && (forall i :: 0 <= i < |fs| - 1 ==>
            fs[i].end <= fs[i + 1].start && fs[i].start < fs[i + 1].start)
  {
    var fs := [f] + rest;
    assert forall i :: 1 <= i < |fs| ==> fs[i] == rest[i - 1];
  }

  /** The captures of every reported match lie inside the subject. */
  lemma FindAllSpans(p: Pat, s: string, from: nat)
    ensures forall i :: 0 <= i < |FindAll(p, s, from)| ==> SpansIn(FindAll(p, s, from)[i].env, |s|)
  {
    var fs := FindAll(p, s, from);
    forall i | 0 <= i < |fs| ensures SpansIn(fs[i].env, |s|) {
      MatchInBounds(p, s, fs[i].start, map[]);
    }
  }

  /** A position covered by a later match stays covered when one more match is put in front. */
  lemma CoversCons(f: Found, rest: seq<Found>, q: nat)
    requires exists i :: 0 <= i < |rest| && Covers(rest[i], q)
    ensures exists i :: 0 <= i < |[f] + rest| && Covers(([f] + rest)[i], q)
  {
    var i :| 0 <= i < |rest| && Covers(rest[i], q);
    assert ([f] + rest)[i + 1] == rest[i];
  }

  /**
   * finditer misses nothing: every position at which the pattern matches
   * is the start of a reported match or lies strictly inside one.
   */
  lemma {:induction false} FindAllComplete(p: Pat, s: string, from: nat, q: nat)
    requires from <= q <= |s| && Match(p, s, q, map[]).Some?
    ensures exists i :: 0 <= i < |FindAll(p, s, from)| && Covers(FindAll(p, s, from)[i], q)
    decreases |s| - from
  {
    var fs := FindAll(p, s, from);
    var m := Match(p, s, from, map[]);
    MatchInBounds(p, s, from, map[]);
    if m.Some? {
      var end := m.value.1;
      var next := if end > from then end else from + 1;
      assert fs == [Found(m.value.0, from, end)] + FindAll(p, s, next);
      if q == from || q < end {
        assert Covers(fs[0], q);
      } else {
        FindAllComplete(p, s, next, q);
        CoversCons(fs[0], FindAll(p, s, next), q);
      }
    } else {
      assert fs == FindAll(p, s, from + 1);
      FindAllComplete(p, s, from + 1, q);
    }
  }
}
