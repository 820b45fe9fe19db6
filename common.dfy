/**
 * Shared vocabulary of the model: failure-carrying results, the errors the
 * library raises, and the handful of Python string operations the record
 * kinds rely on (`str.upper`, `in` on strings, `str.split`, `str.replace`,
 * `int()` on a digit string and `str()` of an integer).
 *
 * Characters are ASCII: Python 3's Unicode-aware `\d`, `\s`, `\w` and
 * `upper` are narrowed to their ASCII meaning.
 */
module Common {

  datatype Option<+T> = None | Some(value: T)

  datatype Result<+T, +E> = Ok(value: T) | Err(error: E) {
    predicate IsFailure() { Err? }
    function PropagateFailure<U>(): Result<U, E>
      requires Err?
    {
      Err(error)
    }
    function Extract(): T
      requires Ok?
    {
      value
    }
  }

  /** The exceptions the modelled code raises. */
  datatype Error =
    | NoMatch(kind: string, line: string)        // ValueError from from_string
    | CastFailure(key: string, raw: string)      // a cast table entry rejected its input
    | AttributeError(name: string)               // __getattr__ / getattr miss
    | IndexError                                 // args[idx + 1] past the end
    | TypeError(what: string)                    // calling or hashing the wrong kind of value

  // ---------------------------------------------------------------------
  // Characters

  predicate IsDigit(c: char) { '0' <= c <= '9' }

  /** Python's `\s` on ASCII: space, \t, \n, \r, \v, \f. */
  predicate IsSpace(c: char) {
    c == ' ' || c == '\t' || c == '\n' || c == '\r' || c == '\U{B}' || c == '\U{C}'
  }

  /** Python's `\w` on ASCII. */
  predicate IsWordChar(c: char) {
    IsDigit(c) || 'a' <= c <= 'z' || 'A' <= c <= 'Z' || c == '_'
  }

  function UpperChar(c: char): char {
    if 'a' <= c <= 'z' then (c as int - 'a' as int + 'A' as int) as char else c
  }

  /** `str.upper()`. */
  function Upper(s: string): (r: string)
    ensures |r| == |s|
    ensures forall i :: 0 <= i < |s| ==> r[i] == UpperChar(s[i])
  {
    if s == [] then [] else [UpperChar(s[0])] + Upper(s[1..])
  }

  // ---------------------------------------------------------------------
  // Lists

  /** `xs.index(x)`, or None where Python raises ValueError. */
  function FirstIndex<T(==)>(xs: seq<T>, x: T): (r: Option<nat>)
    ensures r.None? <==> x !in xs
    ensures r.Some? ==> r.value < |xs| && xs[r.value] == x
    ensures r.Some? ==> forall j :: 0 <= j < r.value ==> xs[j] != x
  {
    if xs == [] then None
    else if xs[0] == x then Some(0)
    else
      var r := FirstIndex(xs[1..], x);
      if r.None? then None else Some(r.value + 1)
  }

  // ---------------------------------------------------------------------
  // Substrings: Python's `needle in hay` on two strings

  predicate IsPrefix(t: string, s: string) {
    |t| <= |s| && s[..|t|] == t
  }

  /** `needle in hay`, searched left to right. */
  predicate Contains(hay: string, needle: string)
    decreases |hay|
  {
    IsPrefix(needle, hay) || (hay != [] && Contains(hay[1..], needle))
  }

  /** `needle` occurs in `hay` starting at index `i`. */
  predicate OccursAt(hay: string, needle: string, i: int) {
    0 <= i && i + |needle| <= |hay| && hay[i..i + |needle|] == needle
  }

  /** `needle` occurs somewhere in `hay`. */
  ghost predicate Occurs(hay: string, needle: string) {
    exists i :: OccursAt(hay, needle, i)
  }

  /** An occurrence one place further in `hay` is an occurrence in its tail. */
  lemma OccursShift(hay: string, needle: string, i: nat)
    requires hay != []
    ensures OccursAt(hay, needle, i + 1) <==> OccursAt(hay[1..], needle, i)
  {
    if i + 1 + |needle| <= |hay| {
      assert hay[1..][i..i + |needle|] == hay[i + 1..i + 1 + |needle|];
    }
  }

  lemma {:induction false} ContainsIffOccurs(hay: string, needle: string)
    ensures Contains(hay, needle) <==> Occurs(hay, needle)
    decreases |hay|
  {
    if IsPrefix(needle, hay) {
      assert OccursAt(hay, needle, 0);
    } else if hay == [] {
      assert |needle| > 0;
    } else {
      ContainsIffOccurs(hay[1..], needle);
      if Contains(hay, needle) {
        var i :| OccursAt(hay[1..], needle, i);
        OccursShift(hay, needle, i);
      }
      if Occurs(hay, needle) {
        var i :| OccursAt(hay, needle, i);
        assert i != 0;
        OccursShift(hay, needle, i - 1);
      }
    }
  }

  // ---------------------------------------------------------------------
  // `str.split(sep)` and `str.replace(old, new)` for a non-empty separator

  /** Index of the first occurrence of `sep` in `s`, if any. */
  function Find(s: string, sep: string): (r: Option<nat>)
    ensures r.Some? ==> OccursAt(s, sep, r.value)
    ensures r.Some? ==> forall j :: 0 <= j < r.value ==> !OccursAt(s, sep, j)
    ensures r.None? ==> forall j :: !OccursAt(s, sep, j)
    decreases |s|
  {
    if IsPrefix(sep, s) then Some(0)
    else if s == [] then None
    else
      var r := Find(s[1..], sep);
      assert forall j :: 1 <= j && OccursAt(s, sep, j) ==> OccursAt(s[1..], sep, j - 1) by {
        forall j | 1 <= j && OccursAt(s, sep, j) ensures OccursAt(s[1..], sep, j - 1) {
          assert s[1..][j - 1..j - 1 + |sep|] == s[j..j + |sep|];
        }
      }
      if r.None? then None
      else
        assert s[1..][r.value..r.value + |sep|] == s[r.value + 1..r.value + 1 + |sep|];
        Some(r.value + 1)
  }

  /** `s.split(sep)`: the pieces between the non-overlapping occurrences of `sep`. */
  function Split(s: string, sep: string): (parts: seq<string>)
    requires sep != []
    ensures |parts| >= 1
    decreases |s|
  {
    match Find(s, sep)
    case None => [s]
    case Some(i) => [s[..i]] + Split(s[i + |sep|..], sep)
  }

  /** `sep.join(parts)`. */
  function Join(parts: seq<string>, sep: string): string {
    if |parts| <= 1 then (if parts == [] then [] else parts[0])
    else parts[0] + sep + Join(parts[1..], sep)
  }

  /** Splitting loses nothing: joining the pieces gives the string back. */
  lemma {:induction false} JoinSplit(s: string, sep: string)
    requires sep != []
    ensures Join(Split(s, sep), sep) == s
    decreases |s|
  {
    match Find(s, sep)
    case None =>
    case Some(i) =>
      var rest := s[i + |sep|..];
      JoinSplit(rest, sep);
      SplitAt(s, sep, i);
      JoinCons(s[..i], Split(rest, sep), sep);
  }

  /** Splitting at the first separator: the piece before it, then the rest split. */
  lemma SplitAt(s: string, sep: string, i: nat)
    requires sep != [] && Find(s, sep) == Some(i)
    ensures i + |sep| <= |s|
    ensures Split(s, sep) == [s[..i]] + Split(s[i + |sep|..], sep)
    ensures s == s[..i] + sep + s[i + |sep|..]
  {
    assert OccursAt(s, sep, i);
    var before, at, after := s[..i], s[i..i + |sep|], s[i + |sep|..];
    assert at == sep;
    assert s[i..] == at + after;
    assert s == before + s[i..];
  }

  lemma JoinCons(a: string, parts: seq<string>, sep: string)
    requires |parts| >= 1
    ensures Join([a] + parts, sep) == a + sep + Join(parts, sep)
  {
    assert ([a] + parts)[1..] == parts;
  }

  /** No piece of a split contains the separator. */
  lemma {:induction false} SplitPartsFree(s: string, sep: string)
    requires sep != []
    ensures forall k :: 0 <= k < |Split(s, sep)| ==> forall j :: !OccursAt(Split(s, sep)[k], sep, j)
    decreases |s|
  {
    match Find(s, sep)
    case None =>
    case Some(i) =>
      var rest := s[i + |sep|..];
      SplitPartsFree(rest, sep);
      forall j ensures !OccursAt(s[..i], sep, j) {
        if OccursAt(s[..i], sep, j) {
          assert s[..i][j..j + |sep|] == s[j..j + |sep|];
          assert OccursAt(s, sep, j);
        }
      }
  }

  /** A string ending in the separator, with no separator character before it, splits in two. */
  lemma SuffixSplit(a: string, sep: string)
    requires sep != [] && forall j :: 0 <= j < |a| ==> a[j] != sep[0]
    ensures Split(a + sep, sep) == [a, ""]
  {
    var s := a + sep;
    var i := |a|;
    assert OccursAt(s, sep, i);
    forall j | 0 <= j < i ensures !OccursAt(s, sep, j) {
      if j + |sep| <= |s| {
        assert s[j..j + |sep|][0] == s[j] == a[j];
      }
    }
    assert Find(s, sep) == Some(i);
    assert s[..i] == a && s[i + |sep|..] == [];
    assert Find([], sep) == None;
  }

  /**
   * Two pieces exactly when the separator occurs at a first position `i`
   * and nowhere from `i + |sep|` on; the pieces are then the text before
   * and the text after that occurrence.
   */
  lemma SplitInTwo(s: string, sep: string)
    requires sep != []
    ensures |Split(s, sep)| == 2 <==>
      Find(s, sep).Some? && forall j :: Find(s, sep).value + |sep| <= j ==> !OccursAt(s, sep, j)
    ensures |Split(s, sep)| == 2 ==>
      var i := Find(s, sep).value;
      i + |sep| <= |s| && Split(s, sep) == [s[..i], s[i + |sep|..]]
    ensures |Split(s, sep)| == 2 && Split(s, sep)[1] == "" ==> s == Split(s, sep)[0] + sep
  {
    match Find(s, sep)
    case None =>
    case Some(i) =>
      SplitAt(s, sep, i);
      var m := i + |sep|;
      SplitOnePiece(s[m..], sep);
      SuffixFree(s, sep, m);
      assert |Split(s, sep)| == 1 + |Split(s[m..], sep)|;
  }

  /** The suffix from m has no separator exactly when none occurs in s from m on. */
  lemma SuffixFree(s: string, sep: string, m: nat)
    requires m <= |s|
    ensures Find(s[m..], sep).None? <==> forall j :: m <= j ==> !OccursAt(s, sep, j)
  {
    if Find(s[m..], sep).None? {
      forall j | m <= j ensures !OccursAt(s, sep, j) {
        OccursInSuffix(s, sep, m, j - m);
      }
    } else {
      OccursInSuffix(s, sep, m, Find(s[m..], sep).value);
    }
  }

  /** A string splits into one piece exactly when the separator is absent. */
  lemma SplitOnePiece(s: string, sep: string)
    requires sep != []
    ensures |Split(s, sep)| == 1 <==> Find(s, sep).None?
    ensures Find(s, sep).None? ==> Split(s, sep) == [s]
  {
  }

  /** An occurrence in a suffix is an occurrence in the whole string, shifted. */
  lemma OccursInSuffix(s: string, sep: string, m: nat, j: nat)
    requires m <= |s|
    ensures OccursAt(s[m..], sep, j) <==> OccursAt(s, sep, m + j)
  {
    if j + |sep| <= |s| - m {
      assert s[m..][j..j + |sep|] == s[m + j..m + j + |sep|];
    }
  }

  /** `s.replace(pat, repl)`: every non-overlapping occurrence, left to right. */
  function ReplaceAll(s: string, pat: string, repl: string): (r: string)
    requires pat != []
    ensures (forall j :: !OccursAt(s, pat, j)) ==> r == s
    decreases |s|
  {
    match Find(s, pat)
    case None => s
    case Some(i) => s[..i] + repl + ReplaceAll(s[i + |pat|..], pat, repl)
  }

  // ---------------------------------------------------------------------
  // Decimal integers: `int(s)` on digit strings and `str(n)`

  predicate AllDigits(s: string) {
    forall i :: 0 <= i < |s| ==> IsDigit(s[i])
  }

  function DigitValue(c: char): nat
    requires IsDigit(c)
  {
    c as int - '0' as int
  }

  /** Value of a string of decimal digits (most significant first). */
  function DecimalValue(s: string): nat
    requires AllDigits(s)
  {
    if s == [] then 0 else 10 * DecimalValue(s[..|s| - 1]) + DigitValue(s[|s| - 1])
  }

  /**
   * `int(s)`: defined on a non-empty run of decimal digits. The signs,
   * surrounding blanks and underscores Python also accepts are not modelled.
   */
  function ParseInt(s: string): (r: Option<int>)
    ensures r.Some? <==> s != [] && AllDigits(s)
    ensures r.Some? ==> r.value >= 0
  {
    if s != [] && AllDigits(s) then Some(DecimalValue(s)) else None
  }

  function DigitChar(d: nat): (c: char)
    requires d < 10
    ensures IsDigit(c) && DigitValue(c) == d
  {
    ('0' as int + d) as char
  }

  function NatToString(n: nat): (s: string)
    ensures s != [] && AllDigits(s)
  {
    if n < 10 then [DigitChar(n)] else NatToString(n / 10) + [DigitChar(n % 10)]
  }

  /** `str(n)`. */
  function IntToString(n: int): string {
    if n < 0 then "-" + NatToString(-n) else NatToString(n)
  }

  /** Rendering a non-negative integer and reading it back gives the integer. */
  lemma {:induction false} ParseIntToString(n: nat)
    ensures ParseInt(IntToString(n)) == Some(n)
  {
    DecimalNatToString(n);
  }

  lemma {:induction false} DecimalNatToString(n: nat)
    ensures DecimalValue(NatToString(n)) == n
  {
    var s := NatToString(n);
    if n >= 10 {
      DecimalNatToString(n / 10);
      assert s[..|s| - 1] == NatToString(n / 10);
    }
  }
}
