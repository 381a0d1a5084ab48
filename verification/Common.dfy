/** Vocabulary shared by every part of the model. */
module Common {

  /** A value that may be undefined. */
  datatype Option<+T> = None | Some(value: T) {
    function GetOr(default: T): (r: T) {
      match this
      case Some(v) => v
      case None => default
    }
  }

  /** What an awaited callback did: it answered, or it threw. */
  datatype Answer<+T> = Answers(value: T) | Throws(error: string)

  /** A JavaScript number. */
  datatype Num = Finite(r: real) | PositiveInfinity | NegativeInfinity | NaN

  ghost predicate NoDuplicates<T>(s: seq<T>) {
    forall i, j :: 0 <= i < j < |s| ==> s[i] != s[j]
  }

  /** The elements of `s` in order of first appearance. */
  function Distinct<T(==,!new)>(s: seq<T>): (r: seq<T>)
    ensures NoDuplicates(r)
    ensures forall x :: x in r <==> x in s
    ensures |r| <= |s|
  {
    if s == [] then [] else
      var front := Distinct(s[..|s| - 1]);
      var last := s[|s| - 1];
      assert s == s[..|s| - 1] + [last];
      if last in front then front else front + [last]
  }

  /** Of two elements the one kept earlier also comes first in `s`. */
  lemma {:induction false} DistinctInOrder<T(!new)>(s: seq<T>, i: nat, j: nat, q: nat)
    requires i < j < |Distinct(s)| && q < |s| && s[q] == Distinct(s)[j]
    ensures exists p :: 0 <= p < q && s[p] == Distinct(s)[i]
  {
    var n := |s| - 1;
    var front, last := s[..n], s[n];
    var kept := Distinct(front);
    assert forall k :: 0 <= k < n ==> front[k] == s[k] && s[k] in front;
    if j == |kept| {
      assert Distinct(s) == kept + [last] && kept[i] in front;
    } else {
      assert kept[j] == Distinct(s)[j] && kept[i] == Distinct(s)[i] && kept[j] in front;
      var q' := if q < n then q else IndexIn(front, kept[j]);
      DistinctInOrder(front, i, j, q');
    }
  }

  ghost function IndexIn<T(!new)>(s: seq<T>, x: T): (i: nat)
    requires x in s
    ensures i < |s| && s[i] == x
  {
    var i: nat :| i < |s| && s[i] == x;
    i
  }

  lemma DistinctSnoc<T(!new)>(s: seq<T>, x: T)
    ensures Distinct(s + [x]) == if x in s then Distinct(s) else Distinct(s) + [x]
  {
    assert (s + [x])[..|s|] == s;
  }

  /** Dropping duplicates early changes nothing later. */
  lemma {:induction false} DistinctAbsorbsLeft<T(!new)>(a: seq<T>, b: seq<T>)
    ensures Distinct(Distinct(a) + b) == Distinct(a + b)
  {
    if b == [] {
      assert Distinct(a) + b == Distinct(a) && a + b == a;
      DistinctOfNoDuplicates(Distinct(a));
    } else {
      hide Distinct;
      var front, last := b[..|b| - 1], b[|b| - 1];
      DistinctAbsorbsLeft(a, front);
      assert b == front + [last];
      assert Distinct(a) + b == (Distinct(a) + front) + [last];
      assert a + b == (a + front) + [last];
      DistinctSnoc(Distinct(a) + front, last);
      DistinctSnoc(a + front, last);
    }
  }

  lemma {:induction false} DistinctAbsorbsRight<T(!new)>(a: seq<T>, b: seq<T>)
    ensures Distinct(a + Distinct(b)) == Distinct(a + b)
  {
    if b == [] {
      assert Distinct(b) == b;
    } else {
      var front, last := b[..|b| - 1], b[|b| - 1];
      DistinctAbsorbsRight(a, front);
      DistinctAbsorbsLast(a, front, last);
      assert b == front + [last];
    }
  }

  lemma DistinctAbsorbsLast<T(!new)>(a: seq<T>, b: seq<T>, x: T)
    requires Distinct(a + Distinct(b)) == Distinct(a + b)
    ensures Distinct(a + Distinct(b + [x])) == Distinct(a + (b + [x]))
  {
    hide Distinct;
    DistinctSnoc(b, x);
    DistinctSnoc(a + b, x);
    assert a + (b + [x]) == (a + b) + [x];
    if x !in b {
      DistinctSnoc(a + Distinct(b), x);
      assert a + (Distinct(b) + [x]) == (a + Distinct(b)) + [x];
    }
  }

  lemma {:induction false} DistinctOfNoDuplicates<T(!new)>(s: seq<T>)
    requires NoDuplicates(s)
    ensures Distinct(s) == s
  {
    if s != [] {
      DistinctOfNoDuplicates(s[..|s| - 1]);
      assert s == s[..|s| - 1] + [s[|s| - 1]];
    }
  }

  /** All the strings of `parts`, one after another. */
  function Concat(parts: seq<string>): (r: string) {
    if parts == [] then "" else Concat(parts[..|parts| - 1]) + parts[|parts| - 1]
  }

  // ---- strings ----

  /** `s.replace(/c/g, "")`. */
  function RemoveAll(s: string, c: char): (r: string) {
    if s == "" then "" else (if s[0] == c then "" else [s[0]]) + RemoveAll(s[1..], c)
  }

  lemma RemoveAllFirst(x: char, s: string, c: char)
    ensures RemoveAll([x] + s, c) == (if x == c then "" else [x]) + RemoveAll(s, c)
  {
    var whole := [x] + s;
    assert whole[0] == x && whole[1..] == s;
  }

  lemma {:induction false} RemoveAllAppends(s: string, t: string, c: char)
    ensures RemoveAll(s + t, c) == RemoveAll(s, c) + RemoveAll(t, c)
  {
    if s == "" {
      assert s + t == t;
    } else {
      hide RemoveAll;
      RemoveAllAppends(s[1..], t, c);
      RemoveAllFirst(s[0], s[1..], c);
      RemoveAllFirst(s[0], s[1..] + t, c);
      assert s == [s[0]] + s[1..] && s + t == [s[0]] + (s[1..] + t);
    }
  }

  lemma {:induction false} RemoveAllNone(s: string, c: char)
    requires forall i :: 0 <= i < |s| ==> s[i] != c
    ensures RemoveAll(s, c) == s
  {
    if s != "" { RemoveAllNone(s[1..], c); }
  }

  lemma {:induction false} RemoveAllOnly(s: string, c: char)
    requires forall i :: 0 <= i < |s| ==> s[i] == c
    ensures RemoveAll(s, c) == ""
  {
    if s != "" { RemoveAllOnly(s[1..], c); }
  }

  /** Where `c` first occurs in `s`, or the length of `s`. */
  function Find(s: string, c: char): (at: nat)
    ensures at <= |s| && (forall i :: 0 <= i < at ==> s[i] != c) && (at < |s| ==> s[at] == c)
  {
    if s == "" || s[0] == c then 0 else 1 + Find(s[1..], c)
  }

  /** `s.indexOf(c, from)`, with the length of `s` for -1. */
  function FindFrom(s: string, c: char, from: nat): (at: nat)
    requires from <= |s|
    ensures from <= at <= |s| && (at < |s| ==> s[at] == c)
    ensures forall k :: from <= k < at ==> s[k] != c
  {
    var t := s[from..];
    assert forall k :: from <= k < |s| ==> s[k] == t[k - from];
    from + Find(t, c)
  }

  /** `a` can be had from `b` by leaving characters out. */
  predicate IsSubsequence(a: string, b: string) {
    a == "" || (b != "" && ((a[0] == b[0] && IsSubsequence(a[1..], b[1..])) || IsSubsequence(a, b[1..])))
  }

  lemma {:induction false} SubsequenceTransitive(a: string, b: string, c: string)
    requires IsSubsequence(a, b) && IsSubsequence(b, c)
    ensures IsSubsequence(a, c)
    decreases |c|
  {
    if a != "" && b != "" {
      if b[0] == c[0] && IsSubsequence(b[1..], c[1..]) {
        if a[0] == b[0] && IsSubsequence(a[1..], b[1..]) {
          SubsequenceTransitive(a[1..], b[1..], c[1..]);
        } else {
          SubsequenceTransitive(a, b[1..], c[1..]);
        }
      } else {
        SubsequenceTransitive(a, b, c[1..]);
      }
    }
  }

  lemma {:induction false} SubsequenceMember(a: string, b: string, x: char)
    requires IsSubsequence(a, b) && x in a
    ensures x in b
    decreases |b|
  {
    if a[0] == b[0] && IsSubsequence(a[1..], b[1..]) {
      if x != a[0] {
        assert x in a[1..];
        SubsequenceMember(a[1..], b[1..], x);
      }
    } else {
      SubsequenceMember(a, b[1..], x);
    }
  }

  lemma {:induction false} PrefixIsSubsequence(s: string, n: nat)
    requires n <= |s|
    ensures IsSubsequence(s[..n], s)
  {
    if n > 0 {
      PrefixIsSubsequence(s[1..], n - 1);
      assert s[..n][1..] == s[1..][..n - 1];
    }
  }

  lemma {:induction false} RemoveAllIsSubsequence(s: string, c: char)
    ensures IsSubsequence(RemoveAll(s, c), s) && c !in RemoveAll(s, c)
  {
    if s != "" {
      RemoveAllIsSubsequence(s[1..], c);
      var r, rest := RemoveAll(s, c), RemoveAll(s[1..], c);
      assert if s[0] == c then r == rest else r == [s[0]] + rest;
    }
  }
}
