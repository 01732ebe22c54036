/** Shared vocabulary: optional values, request failures, tables as
    sequences (WHERE filters and COUNT checks) and the few string
    operations the handlers use (decimal rendering, lower-casing,
    substring search, joining names). */
module Base {

  datatype Option<+T> = None | Some(value: T)

  /** Why a request was refused: an HTTPException with its status code and
      detail text, or an uncaught exception (answered with status 500). */
  datatype Failure = Http(code: int, detail: string) | Internal(message: string)

  datatype Result<+T> = Ok(value: T) | Err(failure: Failure)

  /** The result of a handler whose success carries no value. */
  datatype Outcome = Pass | Fail(failure: Failure)

  // ---------------------------------------------------------------------
  // Tables as sequences
  // ---------------------------------------------------------------------

  /** The rows of `s` that satisfy `p`, in their stored order (a WHERE clause). */
  function Filter<T>(s: seq<T>, p: T -> bool): (r: seq<T>)
    ensures |r| <= |s|
    ensures forall i :: 0 <= i < |r| ==> r[i] in s && p(r[i])
    ensures forall i :: 0 <= i < |s| && p(s[i]) ==> s[i] in r
  {
    if s == [] then []
    else if p(s[0]) then [s[0]] + Filter(s[1..], p)
    else Filter(s[1..], p)
  }

  /** Appending in two steps is appending once. */
  lemma AppendAssoc<T>(a: seq<T>, b: seq<T>, c: seq<T>)
    ensures (a + b) + c == a + (b + c)
  {
  }

  /** Position of the first row whose key column holds `id` (`.first()` of
      a WHERE on that column). */
  function FirstIndex<T>(s: seq<T>, key: T -> int, id: int): (r: Option<nat>)
    ensures r.Some? ==> r.value < |s| && key(s[r.value]) == id
    ensures r.Some? ==> forall k :: 0 <= k < r.value ==> key(s[k]) != id
    ensures r.None? <==> forall k :: 0 <= k < |s| ==> key(s[k]) != id
  {
    if s == [] then None
    else if key(s[0]) == id then Some(0)
    else
      var r := FirstIndex(s[1..], key, id);
      assert forall k :: 1 <= k < |s| ==> s[k] == s[1..][k - 1];
      if r.Some? then Some(r.value + 1) else None
  }

  /** Filtering a table with one more row at the end. */
  lemma {:induction false} FilterSnoc<T>(s: seq<T>, x: T, p: T -> bool)
    ensures Filter(s + [x], p) == Filter(s, p) + (if p(x) then [x] else [])
  {
    if s == [] {
      assert s + [x] == [x];
    } else {
      assert (s + [x])[1..] == s[1..] + [x];
      FilterSnoc(s[1..], x, p);
    }
  }

  /** Filtering one more row of a prefix. */
  lemma FilterPrefixStep<T>(s: seq<T>, i: nat, p: T -> bool)
    requires i < |s|
    ensures Filter(s[..i + 1], p) == Filter(s[..i], p) + (if p(s[i]) then [s[i]] else [])
  {
    assert s[..i + 1] == s[..i] + [s[i]];
    FilterSnoc(s[..i], s[i], p);
  }

  /** Filtering distributes over concatenation. */
  lemma {:induction false} FilterConcat<T>(s: seq<T>, u: seq<T>, p: T -> bool)
    ensures Filter(s + u, p) == Filter(s, p) + Filter(u, p)
  {
    if s == [] {
      assert s + u == u;
    } else {
      assert (s + u)[1..] == s[1..] + u;
      FilterConcat(s[1..], u, p);
    }
  }

  /** A filter every row passes keeps the whole table. */
  lemma {:induction false} FilterAll<T>(s: seq<T>, p: T -> bool)
    requires forall i :: 0 <= i < |s| ==> p(s[i])
    ensures Filter(s, p) == s
  {
    if s != [] {
      FilterAll(s[1..], p);
    }
  }

  /** A filter no row passes keeps nothing. */
  lemma {:induction false} FilterNone<T>(s: seq<T>, p: T -> bool)
    requires forall i :: 0 <= i < |s| ==> !p(s[i])
    ensures Filter(s, p) == []
  {
    if s != [] {
      FilterNone(s[1..], p);
    }
  }

  /** A filter and its negation split a table: every row goes to exactly
      one side. */
  lemma {:induction false} FilterSplit<T>(s: seq<T>, p: T -> bool, q: T -> bool)
    requires forall x :: q(x) <==> !p(x)
    ensures |Filter(s, p)| + |Filter(s, q)| == |s|
  {
    if s != [] {
      FilterSplit(s[1..], p, q);
    }
  }

  /** Three filters of which every row passes exactly one split a table. */
  lemma {:induction false} FilterSplit3<T>(s: seq<T>, p: T -> bool, q: T -> bool, r: T -> bool)
    requires forall x :: (p(x) && !q(x) && !r(x)) || (!p(x) && q(x) && !r(x)) || (!p(x) && !q(x) && r(x))
    ensures |Filter(s, p)| + |Filter(s, q)| + |Filter(s, r)| == |s|
  {
    if s != [] {
      FilterSplit3(s[1..], p, q, r);
    }
  }

  /** The column `f` of the table `s`. */
  function Column<T, K>(s: seq<T>, f: T -> K): (r: seq<K>)
    ensures |r| == |s|
    ensures forall i :: 0 <= i < |s| ==> r[i] == f(s[i])
  {
    seq(|s|, i requires 0 <= i < |s| => f(s[i]))
  }

  predicate Distinct<K(==)>(xs: seq<K>) {
    forall i, j :: 0 <= i < j < |xs| ==> xs[i] != xs[j]
  }

  function Elems<K>(xs: seq<K>): set<K> {
    set x | x in xs
  }

  /** The values of `xs` with repeats dropped, first occurrences kept (a
      GROUP BY on one column). */
  function Unique<K(==,!new)>(xs: seq<K>): (r: seq<K>)
    ensures Distinct(r)
    ensures forall x :: x in r <==> x in xs
    ensures r == [] <==> xs == []
  {
    if xs == [] then []
    else
      var init := xs[..|xs| - 1];
      var prev := Unique(init);
      assert forall x :: x in init ==> x in xs;
      if xs[|xs| - 1] in prev then prev else prev + [xs[|xs| - 1]]
  }

  /** Filtering keeps a unique key column unique. */
  lemma {:induction false} DistinctFilter<T, K>(s: seq<T>, key: T -> K, p: T -> bool)
    requires Distinct(Column(s, key))
    ensures Distinct(Column(Filter(s, p), key))
  {
    if s != [] {
      assert Column(s[1..], key) == Column(s, key)[1..];
      DistinctFilter(s[1..], key, p);
      var rest := Filter(s[1..], p);
      if p(s[0]) {
        var r := [s[0]] + rest;
        forall i, j | 0 <= i < j < |r| ensures key(r[i]) != key(r[j]) {
          if i == 0 {
            var k :| 0 <= k < |s[1..]| && s[1..][k] == r[j];
            assert Column(s, key)[0] != Column(s, key)[k + 1];
          } else {
            assert Column(rest, key)[i - 1] != Column(rest, key)[j - 1];
          }
        }
      }
    }
  }

  /** The COUNT check on a table with a unique key: selecting the rows whose
      key is requested and present finds as many rows as keys were
      requested exactly when the requested keys are pairwise different and
      all present. */
  lemma KeyedCountCheck<T, K>(s: seq<T>, key: T -> K, p: T -> bool, ids: seq<K>, present: set<K>)
    requires Distinct(Column(s, key))
    requires present <= Elems(Column(s, key))
    requires forall x :: x in s ==> (p(x) <==> key(x) in ids && key(x) in present)
    ensures |Filter(s, p)| == |ids| <==> Distinct(ids) && Elems(ids) <= present
  {
    var r := Filter(s, p);
    DistinctFilter(s, key, p);
    ElemsCard(Column(r, key));
    assert Elems(Column(r, key)) == Elems(ids) * present by {
      forall k | k in Elems(ids) * present ensures k in Elems(Column(r, key)) {
        var i :| 0 <= i < |s| && Column(s, key)[i] == k;
        assert s[i] in r;
        var j :| 0 <= j < |r| && r[j] == s[i];
        assert Column(r, key)[j] == k;
      }
    }
    CountCheck(ids, present);
  }

  lemma {:induction false} ElemsCard<K>(xs: seq<K>)
    ensures |Elems(xs)| <= |xs|
    ensures |Elems(xs)| == |xs| <==> Distinct(xs)
  {
    if xs != [] {
      var rest := xs[1..];
      ElemsCard(rest);
      assert Elems(xs) == {xs[0]} + Elems(rest);
      if xs[0] in rest {
        assert Elems(xs) == Elems(rest);
        var j :| 0 <= j < |rest| && rest[j] == xs[0];
        assert xs[0] == xs[j + 1];
      } else {
        assert Distinct(xs) <==> Distinct(rest) by {
          if Distinct(rest) {
            forall i, j | 0 <= i < j < |xs| ensures xs[i] != xs[j] {
              if i > 0 { assert xs[i] == rest[i - 1] && xs[j] == rest[j - 1]; }
              else { assert xs[j] in rest; }
            }
          }
          if Distinct(xs) {
            forall i, j | 0 <= i < j < |rest| ensures rest[i] != rest[j] {
              assert rest[i] == xs[i + 1] && rest[j] == xs[j + 1];
            }
          }
        }
      }
    }
  }

  lemma SubsetCard<K>(a: set<K>, b: set<K>)
    requires a <= b
    ensures |a| <= |b|
    ensures |a| == |b| ==> a == b
  {
    assert b == a + (b - a);
    assert |b| == |a| + |b - a|;
    if |a| == |b| {
      assert |b - a| == 0;
      assert b - a == {};
    }
  }

  /** The count check used by every `validate_*` guard: asking for `ids` and
      finding as many rows as ids were asked for happens exactly when the ids
      are pairwise different and all of them are present. */
  lemma CountCheck<K>(ids: seq<K>, present: set<K>)
    ensures |ids| == |Elems(ids) * present| <==> Distinct(ids) && Elems(ids) <= present
  {
    ElemsCard(ids);
    SubsetCard(Elems(ids) * present, Elems(ids));
  }

  // ---------------------------------------------------------------------
  // Strings
  // ---------------------------------------------------------------------

  predicate IsDigit(c: char) {
    '0' as int <= c as int <= '9' as int
  }

  function Digit(d: nat): (c: char)
    requires d < 10
    ensures IsDigit(c) && c as int - '0' as int == d
  {
    ('0' as int + d) as char
  }

  /** Python's `str(n)` / `f"{n}"` for a non-negative integer. */
  function NatToString(n: nat): (s: string)
    ensures |s| >= 1
    ensures forall i :: 0 <= i < |s| ==> IsDigit(s[i])
  {
    if n < 10 then [Digit(n)] else NatToString(n / 10) + [Digit(n % 10)]
  }

  /** Python's `str(i)` for any integer. */
  function IntToString(i: int): string {
    if i < 0 then "-" + NatToString(-i) else NatToString(i)
  }

  /** Reads back a string of decimal digits. */
  function ParseNat(s: string): nat
    requires forall i :: 0 <= i < |s| ==> IsDigit(s[i])
  {
    if s == [] then 0
    else assert IsDigit(s[|s| - 1]); ParseNat(s[..|s| - 1]) * 10 + (s[|s| - 1] as int - '0' as int)
  }

  /** Decimal rendering loses nothing: the digits read back as the number. */
  lemma {:induction false} ParseNatToString(n: nat)
    ensures ParseNat(NatToString(n)) == n
  {
    var s := NatToString(n);
    if n >= 10 {
      ParseNatToString(n / 10);
      assert s[..|s| - 1] == NatToString(n / 10);
    }
  }

  /** Distinct numbers render as distinct strings. */
  lemma NatToStringInjective(m: nat, n: nat)
    requires NatToString(m) == NatToString(n)
    ensures m == n
  {
    ParseNatToString(m);
    ParseNatToString(n);
  }

  /** The length of the run of digits a string starts with. */
  function LeadingDigits(s: string): nat {
    if s == [] || !IsDigit(s[0]) then 0 else 1 + LeadingDigits(s[1..])
  }

  /** A number followed by a non-digit: the digits end where the number does. */
  lemma {:induction false} LeadingDigitsOf(ds: string, rest: string)
    requires forall i :: 0 <= i < |ds| ==> IsDigit(ds[i])
    requires rest != [] && !IsDigit(rest[0])
    ensures LeadingDigits(ds + rest) == |ds|
  {
    if ds == [] {
      assert ds + rest == rest;
    } else {
      assert (ds + rest)[1..] == ds[1..] + rest;
      LeadingDigitsOf(ds[1..], rest);
    }
  }

  /** ASCII lower-casing, as `str.lower()` acts on ASCII letters. */
  function LowerChar(c: char): char {
    if 'A' <= c <= 'Z' then (c as int + 32) as char else c
  }

  function Lower(s: string): (r: string)
    ensures |r| == |s|
    ensures forall i :: 0 <= i < |s| ==> r[i] == LowerChar(s[i])
  {
    seq(|s|, i requires 0 <= i < |s| => LowerChar(s[i]))
  }

  predicate OccursAt(s: string, sub: string, i: int) {
    0 <= i <= |s| - |sub| && s[i..i + |sub|] == sub
  }

  /** Python's `sub in s`. */
  predicate Contains(s: string, sub: string) {
    exists i | 0 <= i <= |s| - |sub| :: OccursAt(s, sub, i)
  }

  /** `sep.join(parts)`. */
  function Join(parts: seq<string>, sep: string): string {
    if parts == [] then ""
    else if |parts| == 1 then parts[0]
    else parts[0] + sep + Join(parts[1..], sep)
  }
}
