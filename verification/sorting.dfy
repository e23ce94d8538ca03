/** `Array.prototype.sort` with a descending numeric comparator
    (`(a, b) => key(b) - key(a)`), which ECMAScript requires to be stable,
    and the re-ranking `map((c, idx) => ({ ...c, rank: idx + 1 }))`. */
module Sorting {
  import opened Types

  predicate SortedDesc<T>(s: seq<T>, key: T -> real)
  {
    forall i, j :: 0 <= i < j < |s| ==> key(s[i]) >= key(s[j])
  }

  /** The elements of s with key v, in order. */
  function WithKey<T>(s: seq<T>, key: T -> real, v: real): (r: seq<T>)
    ensures |r| <= |s|
  {
    if |s| == 0 then []
    else WithKey(s[..|s| - 1], key, v) + (if key(s[|s| - 1]) == v then [s[|s| - 1]] else [])
  }

  /** Insert x into a descending list after every element whose key is at
      least key(x). */
  function Insert<T>(x: T, s: seq<T>, key: T -> real): (r: seq<T>)
    ensures multiset(r) == multiset(s) + multiset{x}
    ensures |r| == |s| + 1
    ensures forall i :: 0 <= i < |r| ==> r[i] == x || r[i] in s
  {
    if |s| == 0 then [x]
    else if key(s[0]) >= key(x) then
      assert s == [s[0]] + s[1..];
      [s[0]] + Insert(x, s[1..], key)
    else [x] + s
  }

  /** Insertion sort: each element in turn is inserted behind the equal
      keys already placed, so equal keys keep their input order. */
  function SortDesc<T>(s: seq<T>, key: T -> real): (r: seq<T>)
    ensures multiset(r) == multiset(s)
    ensures |r| == |s|
    ensures SortedDesc(r, key)
  {
    if |s| == 0 then []
    else
      assert s == s[..|s| - 1] + [s[|s| - 1]];
      InsertSorted(s[|s| - 1], SortDesc(s[..|s| - 1], key), key);
      Insert(s[|s| - 1], SortDesc(s[..|s| - 1], key), key)
  }

  lemma {:induction false} InsertSorted<T>(x: T, s: seq<T>, key: T -> real)
    requires SortedDesc(s, key)
    ensures SortedDesc(Insert(x, s, key), key)
  {
    if |s| > 0 && key(s[0]) >= key(x) {
      InsertSorted(x, s[1..], key);
      var t := Insert(x, s[1..], key);
      assert forall k :: 0 <= k < |t| ==> key(s[0]) >= key(t[k]) by {
        forall k | 0 <= k < |t| ensures key(s[0]) >= key(t[k]) {
          if t[k] != x {
            var j :| 0 <= j < |s[1..]| && s[1..][j] == t[k];
            assert s[j + 1] == t[k];
          }
        }
      }
    }
  }

  lemma {:induction false} WithKeyAppend<T>(s: seq<T>, t: seq<T>, key: T -> real, v: real)
    ensures WithKey(s + t, key, v) == WithKey(s, key, v) + WithKey(t, key, v)
    decreases |t|
  {
    if |t| > 0 {
      assert (s + t)[..|s + t| - 1] == s + t[..|t| - 1];
      WithKeyAppend(s, t[..|t| - 1], key, v);
    } else {
      assert s + t == s;
    }
  }

  lemma WithKeySingle<T>(x: T, key: T -> real, v: real)
    ensures WithKey([x], key, v) == if key(x) == v then [x] else []
  {
    assert [x][..0] == [];
  }

  /** Inserting x into a descending list puts it after every element with
      the same key. */
  lemma {:induction false} InsertWithKey<T>(x: T, s: seq<T>, key: T -> real, v: real)
    requires SortedDesc(s, key)
    ensures WithKey(Insert(x, s, key), key, v) == WithKey(s, key, v) + (if key(x) == v then [x] else [])
  {
    if |s| == 0 {
      WithKeySingle(x, key, v);
    } else if key(s[0]) >= key(x) {
      assert SortedDesc(s[1..], key);
      InsertWithKey(x, s[1..], key, v);
      InsertBehind(x, s, key, v);
    } else {
      InsertAtFront(x, s, key, v);
    }
  }

  lemma InsertBehind<T>(x: T, s: seq<T>, key: T -> real, v: real)
    requires |s| > 0 && key(s[0]) >= key(x)
    requires WithKey(Insert(x, s[1..], key), key, v) == WithKey(s[1..], key, v) + (if key(x) == v then [x] else [])
    ensures WithKey(Insert(x, s, key), key, v) == WithKey(s, key, v) + (if key(x) == v then [x] else [])
  {
    var tail := if key(x) == v then [x] else [];
    var rest := s[1..];
    var t := Insert(x, rest, key);
    assert Insert(x, s, key) == [s[0]] + t;
    WithKeyAppend([s[0]], t, key, v);
    WithKeyAppend([s[0]], rest, key, v);
    assert [s[0]] + rest == s;
    calc {
      WithKey(Insert(x, s, key), key, v);
      WithKey([s[0]], key, v) + WithKey(t, key, v);
      WithKey([s[0]], key, v) + (WithKey(rest, key, v) + tail);
      (WithKey([s[0]], key, v) + WithKey(rest, key, v)) + tail;
      WithKey(s, key, v) + tail;
    }
  }

  lemma InsertAtFront<T>(x: T, s: seq<T>, key: T -> real, v: real)
    requires SortedDesc(s, key) && |s| > 0 && key(s[0]) < key(x)
    ensures WithKey(Insert(x, s, key), key, v) == WithKey(s, key, v) + (if key(x) == v then [x] else [])
  {
    assert Insert(x, s, key) == [x] + s;
    WithKeyAppend([x], s, key, v);
    WithKeySingle(x, key, v);
    if key(x) == v {
      NoneWithKey(s, key, v);
    }
  }

  /** In a descending list whose head key is below v, nothing has key v. */
  lemma {:induction false} NoneWithKey<T>(s: seq<T>, key: T -> real, v: real)
    requires SortedDesc(s, key) && |s| > 0 && key(s[0]) < v
    ensures WithKey(s, key, v) == []
  {
    if |s| > 1 {
      NoneWithKey(s[..|s| - 1], key, v);
    } else {
      assert s[..0] == [];
    }
  }

  /** The sort is stable: for every key, the elements with that key appear
      in the output in the order they had in the input. */
  lemma {:induction false} SortDescStable<T>(s: seq<T>, key: T -> real, v: real)
    ensures WithKey(SortDesc(s, key), key, v) == WithKey(s, key, v)
  {
    if |s| > 0 {
      var init := s[..|s| - 1];
      SortDescStable(init, key, v);
      InsertWithKey(s[|s| - 1], SortDesc(init, key), key, v);
    }
  }

  /** `rank: idx + 1` for every position. */
  function AssignRanks(cs: seq<Candidate>): (r: seq<Candidate>)
    ensures |r| == |cs|
    ensures forall i :: 0 <= i < |cs| ==> r[i] == cs[i].(rank := i + 1)
  {
    seq(|cs|, i requires 0 <= i < |cs| => cs[i].(rank := i + 1))
  }

  function Score(c: Candidate): real { c.score }

  /** Sort candidates by score, best first, and number them from 1. */
  function SortAndRank(cs: seq<Candidate>): (r: seq<Candidate>)
    ensures |r| == |cs|
    ensures forall i :: 0 <= i < |r| ==> r[i].rank == i + 1
    ensures SortedDesc(r, Score)
    ensures exists p :: multiset(p) == multiset(cs) && r == AssignRanks(p)
  {
    var p := SortDesc(cs, Score);
    var r := AssignRanks(p);
    assert forall i, j :: 0 <= i < j < |r| ==> Score(r[i]) >= Score(r[j]) by {
      forall i, j | 0 <= i < j < |r| ensures Score(r[i]) >= Score(r[j]) {
        assert Score(r[i]) == Score(p[i]) && Score(r[j]) == Score(p[j]);
      }
    }
    r
  }

  /** Every ranked candidate is an input candidate with its rank set to its
      position. */
  lemma SortAndRankFrom(cs: seq<Candidate>, i: nat)
    requires i < |cs|
    ensures exists j :: 0 <= j < |cs| && SortAndRank(cs)[i] == cs[j].(rank := i + 1)
  {
    var r := SortAndRank(cs);
    var p :| multiset(p) == multiset(cs) && r == AssignRanks(p);
    assert p[i] in multiset(cs);
    var j :| 0 <= j < |cs| && cs[j] == p[i];
    assert r[i] == cs[j].(rank := i + 1);
  }

  /** Every input candidate comes out, ranked by its position. */
  lemma SortAndRankKeeps(cs: seq<Candidate>, j: nat)
    requires j < |cs|
    ensures exists i :: 0 <= i < |cs| && SortAndRank(cs)[i] == cs[j].(rank := i + 1)
  {
    var r := SortAndRank(cs);
    var p :| multiset(p) == multiset(cs) && r == AssignRanks(p);
    assert cs[j] in multiset(p);
    var i :| 0 <= i < |p| && p[i] == cs[j];
    assert r[i] == cs[j].(rank := i + 1);
  }

  /** A prefix of a best-first sequence is best-first. */
  lemma PrefixSorted<T>(s: seq<T>, key: T -> real, n: nat)
    requires SortedDesc(s, key) && n <= |s|
    ensures SortedDesc(s[..n], key)
  {
    assert forall i | 0 <= i < n :: s[..n][i] == s[i];
  }

  /** In a best-first sequence, an element beyond a prefix ranks no higher
      than the prefix's last element. */
  lemma PrefixBound<T>(s: seq<T>, key: T -> real, n: nat, x: T)
    requires SortedDesc(s, key) && 0 < n <= |s|
    requires x in s && x !in s[..n]
    ensures key(x) <= key(s[n - 1])
  {
    assert forall k | 0 <= k < n :: s[..n][k] == s[k];
    var j :| 0 <= j < |s| && s[j] == x;
  }
}
