/** Containers and string helpers the models share. A Go string is a sequence of bytes;
    here one `char` stands for one byte, so a string and its bytes are the same value. */
module Basics {

  datatype Option<+T> = None | Some(value: T)

  /** The elements of a sequence. */
  function Elems<T>(s: seq<T>): set<T> {
    set x | x in s
  }

  lemma ElemsAppend<T>(s: seq<T>, x: T)
    ensures Elems(s + [x]) == Elems(s) + {x}
  {
    assert forall y :: y in s + [x] <==> y in s || y == x;
  }

  /** Positions i and j hold different elements. */
  predicate Apart<T(==)>(s: seq<T>, i: int, j: int) {
    0 <= i < j < |s| ==> s[i] != s[j]
  }

  predicate Distinct<T(==)>(s: seq<T>) {
    forall i, j {:trigger Apart(s, i, j)} :: 0 <= i < |s| && 0 <= j < |s| ==> Apart(s, i, j)
  }

  lemma DistinctAppend<T>(s: seq<T>, x: T)
    requires Distinct(s) && x !in s
    ensures Distinct(s + [x])
  {
    var t := s + [x];
    forall i, j | 0 <= i < |t| && 0 <= j < |t| ensures Apart(t, i, j) {
      assert Apart(s, i, j);
      if 0 <= i < j == |s| { assert s[i] in s; }
    }
  }

  /** An element of a sequence without repetition is not before its own position. */
  lemma DistinctBefore<T>(s: seq<T>, k: nat)
    requires Distinct(s) && k < |s|
    ensures s[k] !in s[..k]
  {
    forall i | 0 <= i < k ensures s[i] != s[k] { assert Apart(s, i, k); }
  }

  /** A sequence without repetition is no longer than any set that holds it. */
  lemma {:induction false} DistinctFits<T>(s: seq<T>, pool: set<T>)
    requires Distinct(s)
    requires forall x :: x in s ==> x in pool
    ensures |s| <= |pool|
    decreases |s|
  {
    if s != [] {
      var n := |s| - 1;
      DistinctBefore(s, n);
      forall i, j | 0 <= i < n && 0 <= j < n ensures Apart(s[..n], i, j) { assert Apart(s, i, j); }
      assert forall x :: x in s[..n] ==> x in s;
      DistinctFits(s[..n], pool - {s[n]});
    }
  }

  /** A subset is no larger. */
  lemma {:induction false} SubsetSize<T>(a: set<T>, b: set<T>)
    requires a <= b
    ensures |a| <= |b|
  {
    if a == {} {
    } else {
      var x :| x in a;
      SubsetSize(a - {x}, b - {x});
    }
  }

  // --- strings ---

  predicate IsBlank(c: char) {
    c == ' ' || c == '\t' || c == '\r' || c == '\n'
  }

  /** `strings.TrimRight(s, " \t\r\n")`. */
  function TrimRight(s: string): string {
    if s != [] && IsBlank(s[|s| - 1]) then TrimRight(s[..|s| - 1]) else s
  }

  function Join(parts: seq<string>, sep: string): string {
    if parts == [] then ""
    else if |parts| == 1 then parts[0]
    else parts[0] + sep + Join(parts[1..], sep)
  }

  /** `strconv.Itoa` for the counts the evaluator renders. */
  function Decimal(n: nat): string {
    if n < 10 then ["0123456789"[n]] else Decimal(n / 10) + ["0123456789"[n % 10]]
  }

  function Itoa(n: int): string {
    if n < 0 then "-" + Decimal(-n) else Decimal(n)
  }

  // --- sort.Strings ---

  /** Byte order, the order Go compares strings in. */
  predicate Below(a: string, b: string) {
    if b == [] then false
    else if a == [] then true
    else a[0] < b[0] || (a[0] == b[0] && Below(a[1..], b[1..]))
  }

  lemma {:induction false} BelowTrichotomy(a: string, b: string)
    ensures a == b || Below(a, b) || Below(b, a)
    ensures !(Below(a, b) && Below(b, a))
    ensures Below(a, b) ==> a != b
  {
    if a != [] && b != [] && a[0] == b[0] {
      BelowTrichotomy(a[1..], b[1..]);
      assert a == [a[0]] + a[1..] && b == [b[0]] + b[1..];
    }
  }

  lemma {:induction false} BelowTransitive(a: string, b: string, c: string)
    requires Below(a, b) && Below(b, c)
    ensures Below(a, c)
  {
    if a != [] && b != [] && c != [] && a[0] == b[0] == c[0] {
      BelowTransitive(a[1..], b[1..], c[1..]);
    }
  }

  predicate Sorted(s: seq<string>) {
    forall i, j :: 0 <= i < j < |s| ==> Below(s[i], s[j])
  }

  predicate IsLeast(m: string, s: set<string>) {
    m in s && forall x :: x in s && x != m ==> Below(m, x)
  }

  lemma {:induction false} LeastExists(s: set<string>) returns (m: string)
    requires s != {}
    ensures IsLeast(m, s)
  {
    var x :| x in s;
    if s == {x} {
      m := x;
    } else {
      var rest := LeastExists(s - {x});
      BelowTrichotomy(x, rest);
      m := if Below(x, rest) then x else rest;
      forall y | y in s && y != m ensures Below(m, y) {
        if y != x && m == x && y != rest {
          BelowTransitive(x, rest, y);
        }
      }
    }
  }

  lemma LeastUnique(m: string, n: string, s: set<string>)
    requires IsLeast(m, s) && IsLeast(n, s)
    ensures m == n
  {
    BelowTrichotomy(m, n);
  }

  function Least(s: set<string>): (m: string)
    requires s != {}
    ensures IsLeast(m, s)
  {
    assert exists x :: IsLeast(x, s) by { var w := LeastExists(s); }
    assert forall x, y :: IsLeast(x, s) && IsLeast(y, s) ==> x == y by {
      forall x, y | IsLeast(x, s) && IsLeast(y, s) ensures x == y { LeastUnique(x, y, s); }
    }
    var m :| m in s && IsLeast(m, s);
    m
  }

  /** Every element of the set once, in order. */
  ghost predicate IsSorting(r: seq<string>, s: set<string>) {
    Elems(r) == s && |r| == |s| && Sorted(r)
  }

  lemma SortedCons(m: string, rest: seq<string>, s: set<string>)
    requires IsLeast(m, s) && IsSorting(rest, s - {m})
    ensures IsSorting([m] + rest, s)
  {
    assert forall x :: x in rest <==> x in s && x != m by {
      assert forall x :: x in rest <==> x in Elems(rest);
    }
    assert forall x :: x in [m] + rest <==> x in s;
  }

  lemma {:induction false} SortingExists(s: set<string>) returns (r: seq<string>)
    ensures IsSorting(r, s)
    decreases |s|
  {
    if s == {} {
      r := [];
    } else {
      var m := LeastExists(s);
      var rest := SortingExists(s - {m});
      SortedCons(m, rest, s);
      r := [m] + rest;
    }
  }

  lemma SortingHead(r: seq<string>, s: set<string>)
    requires IsSorting(r, s) && r != []
    ensures IsLeast(r[0], s) && IsSorting(r[1..], s - {r[0]})
  {
    assert forall x :: x in r <==> x in Elems(r);
    forall x | x in s && x != r[0] ensures Below(r[0], x) && x in r[1..] {
      var i :| 0 <= i < |r| && r[i] == x;
      assert r[1..][i - 1] == x;
    }
    forall x | x in r[1..] ensures x in s && x != r[0] {
      var i :| 0 <= i < |r[1..]| && r[1..][i] == x;
      BelowTrichotomy(r[0], r[i + 1]);
    }
    assert Elems(r[1..]) == s - {r[0]};
  }

  lemma {:induction false} SortingUnique(a: seq<string>, b: seq<string>, s: set<string>)
    requires IsSorting(a, s) && IsSorting(b, s)
    ensures a == b
    decreases |a|
  {
    if a != [] {
      SortingHead(a, s);
      SortingHead(b, s);
      LeastUnique(a[0], b[0], s);
      SortingUnique(a[1..], b[1..], s - {a[0]});
      assert a == [a[0]] + a[1..] && b == [b[0]] + b[1..];
    }
  }

  /** What `sort.Strings` makes of the keys of a map. */
  ghost function SortedSeq(s: set<string>): (r: seq<string>)
    ensures Elems(r) == s && |r| == |s|
  {
    assert exists r :: IsSorting(r, s) by { var w := SortingExists(s); }
    var r :| IsSorting(r, s);
    r
  }

  lemma SortedSeqSorts(s: set<string>)
    ensures IsSorting(SortedSeq(s), s)
  {
    assert exists r :: IsSorting(r, s) by { var w := SortingExists(s); }
  }

  /** The keys sorted, the least of what is left at a time. */
  method SortStrings(s: set<string>) returns (r: seq<string>)
    ensures r == SortedSeq(s) && IsSorting(r, s)
  {
    var left := s;
    r := [];
    while left != {}
      invariant left <= s && Elems(r) == s - left && |r| == |s| - |left| && Sorted(r)
      invariant forall x, y :: x in r && y in left ==> Below(x, y)
      decreases |left|
    {
      var m := Least(left);
      ElemsAppend(r, m);
      assert forall x :: x in r + [m] <==> x in r || x == m;
      r := r + [m];
      left := left - {m};
    }
    SortedSeqSorts(s);
    SortingUnique(r, SortedSeq(s), s);
  }
}
