/** Types and string helpers shared by the other modules, and a few facts about finite sets, lists without repetition
    and division with rest. */
module Basics {
  datatype Option<+T> = None | Some(value: T)

  type Byte = b: int | 0 <= b < 256

  /** The characters Python's str.strip family and str.split treat as white space, within ASCII. */
  predicate IsSpace(c: char) {
    c == ' ' || 9 <= c as int <= 13 || 28 <= c as int <= 31
  }

  /** str.lstrip: `s` without its leading white space. */
  function LStrip(s: string): (r: string)
    ensures |r| <= |s| && r == s[|s| - |r|..]
    ensures r != [] ==> !IsSpace(r[0])
    ensures forall i :: 0 <= i < |s| - |r| ==> IsSpace(s[i])
  {
    if s != [] && IsSpace(s[0]) then LStrip(s[1..]) else s
  }

  /** str.rstrip: `s` without its trailing white space. */
  function RStrip(s: string): (r: string)
    ensures r <= s
    ensures r != [] ==> !IsSpace(r[|r| - 1])
    ensures forall i :: |r| <= i < |s| ==> IsSpace(s[i])
  {
    if s != [] && IsSpace(s[|s| - 1]) then RStrip(s[..|s| - 1]) else s
  }

  /** str.lower on ASCII text. */
  function LowerChar(c: char): char {
    if 'A' <= c <= 'Z' then (c as int + 32) as char else c
  }

  function Lower(s: string): (r: string)
    ensures |r| == |s|
    ensures forall i :: 0 <= i < |s| ==> r[i] == LowerChar(s[i])
  {
    seq(|s|, i requires 0 <= i < |s| => LowerChar(s[i]))
  }

  /** The ASCII white space, and the letters, one by one. */
  lemma {:induction false} AsciiTables()
    ensures forall c :: IsSpace(c) <==> c as int in {9, 10, 11, 12, 13, 28, 29, 30, 31, 32}
    ensures Lower("ABCDEFGHIJKLMNOPQRSTUVWXYZ") == "abcdefghijklmnopqrstuvwxyz"
    ensures forall c :: !('A' <= c <= 'Z') ==> LowerChar(c) == c
  {
    var upper, lower := "ABCDEFGHIJKLMNOPQRSTUVWXYZ", "abcdefghijklmnopqrstuvwxyz";
    assert |upper| == |lower| == 26;
    forall i | 0 <= i < 26 ensures LowerChar(upper[i]) == lower[i] {
      assert upper[i] as int == 'A' as int + i && lower[i] as int == 'a' as int + i;
    }
  }

  /** The number of words `s.split()` yields. */
  function WordCount(s: string): nat {
    if s == [] then 0
    else if IsSpace(s[0]) then WordCount(s[1..])
    else if |s| == 1 || IsSpace(s[1]) then 1 + WordCount(s[1..])
    else WordCount(s[1..])
  }

  /** Position i of `s` is the first character of a word. */
  ghost predicate WordStart(s: string, i: int) {
    0 <= i < |s| && !IsSpace(s[i]) && (i > 0 ==> IsSpace(s[i - 1]))
  }

  /** There are as many words as first characters of words. */
  lemma {:induction false} WordCountIs(s: string)
    ensures WordCount(s) == |set i | 0 <= i < |s| && WordStart(s, i)|
  {
    var starts := set i | 0 <= i < |s| && WordStart(s, i);
    if s == [] {
      assert starts == {};
    } else {
      WordsFrom(s, 0);
      assert s[0..] == s;
      assert starts == StartsFrom(s, 0);
    }
  }

  /** The first characters of words from position n on, a word that goes on there not counting as new. */
  ghost function StartsFrom(s: string, n: nat): set<int> {
    set i | n <= i < |s| && (WordStart(s, i) || (i == n && !IsSpace(s[i])))
  }

  lemma {:induction false} WordsFrom(s: string, n: nat)
    requires n <= |s|
    ensures WordCount(s[n..]) == |StartsFrom(s, n)|
    decreases |s| - n
  {
    if n == |s| {
      assert StartsFrom(s, n) == {};
    } else {
      WordsFrom(s, n + 1);
      assert s[n..][1..] == s[n + 1..];
      StartsStep(s, n, StartsFrom(s, n), StartsFrom(s, n + 1));
    }
  }

  lemma {:induction false} StartsStep(s: string, n: nat, here: set<int>, rest: set<int>)
    requires n < |s| && here == StartsFrom(s, n) && rest == StartsFrom(s, n + 1)
    ensures |here| == if IsSpace(s[n]) || (n + 1 < |s| && !IsSpace(s[n + 1])) then |rest| else |rest| + 1
  {
    if IsSpace(s[n]) {
      assert here == rest;
    } else if n + 1 < |s| && !IsSpace(s[n + 1]) {
      assert n + 1 in rest && n !in rest;
      assert here == rest - {n + 1} + {n};
    } else {
      assert n !in rest;
      assert here == rest + {n};
    }
  }

  /** Injective sequences: no element occurs twice. */
  ghost predicate Distinct<T>(s: seq<T>) {
    forall i, j :: 0 <= i < j < |s| ==> s[i] != s[j]
  }

  /** The integers of [lo, hi). */
  ghost function Range(lo: int, hi: int): (r: set<int>)
    requires lo <= hi
    ensures forall x :: x in r <==> lo <= x < hi
    ensures |r| == hi - lo
    decreases hi - lo
  {
    if lo == hi then {} else Range(lo, hi - 1) + {hi - 1}
  }

  /** A subset that has as many elements as the whole set is the whole set. */
  lemma {:induction false} SubsetSize<T>(s: set<T>, t: set<T>)
    requires s <= t
    ensures |s| <= |t|
    ensures |s| == |t| ==> s == t
  {
    if s == {} {
    } else {
      var x :| x in s;
      SubsetSize(s - {x}, t - {x});
    }
  }

  lemma {:induction false} PickOne<T>(s: set<T>) returns (x: T)
    requires s != {}
    ensures x in s
  {
    x :| x in s;
  }

  ghost function Elements<T>(s: seq<T>): set<T> {
    set x | x in s
  }

  /** The elements of an injective sequence form a set of the same size. */
  lemma {:induction false} DistinctSetSize<T>(s: seq<T>)
    requires Distinct(s)
    ensures |Elements(s)| == |s|
  {
    if s != [] {
      var rest := s[..|s| - 1];
      DistinctSetSize(rest);
      var last := s[|s| - 1];
      assert Elements(s) == Elements(rest) + {last};
      assert last !in rest;
    }
  }

  /** Pigeonhole: distinct indices out of [lo, hi) are all of them exactly when there are hi - lo of them. */
  lemma {:induction false} DistinctCovers(s: seq<int>, lo: int, hi: int)
    requires lo <= hi && Distinct(s)
    requires forall i :: 0 <= i < |s| ==> lo <= s[i] < hi
    ensures |s| <= hi - lo
    ensures |s| == hi - lo <==> forall x :: lo <= x < hi ==> x in s
  {
    DistinctSetSize(s);
    SubsetSize(Elements(s), Range(lo, hi));
    if |s| == hi - lo {
      forall x | lo <= x < hi ensures x in s {
        assert x in Range(lo, hi);
      }
    }
    if forall x :: lo <= x < hi ==> x in s {
      assert Range(lo, hi) <= Elements(s);
      assert Range(lo, hi) == Elements(s);
    }
  }

  // ---------------------------------------------------------------------------------------------
  // Tables built from a list of entries

  /** `last` is the position of the last entry with key k. */
  ghost predicate IsLast<K, V>(entries: seq<(K, V)>, k: K, last: int) {
    && 0 <= last < |entries| && entries[last].0 == k
    && forall i :: last < i < |entries| ==> entries[i].0 != k
  }

  ghost predicate Occurs<K, V>(entries: seq<(K, V)>, k: K) {
    exists i :: 0 <= i < |entries| && entries[i].0 == k
  }

  /** The table holds the keys of the entries, each with the value of its last entry. */
  ghost predicate LastWins<K(!new), V>(table: map<K, V>, entries: seq<(K, V)>) {
    && (forall k :: k in table <==> Occurs(entries, k))
    && (forall k, last :: IsLast(entries, k, last) ==> k in table && table[k] == entries[last].1)
  }

  lemma {:induction false} LastWinsStep<K(!new), V>(table: map<K, V>, entries: seq<(K, V)>, k: K, v: V)
    requires LastWins(table, entries)
    ensures LastWins(table[k := v], entries + [(k, v)])
  {
    var more := entries + [(k, v)];
    assert more[|entries|] == (k, v);
    forall j ensures Occurs(more, j) <==> Occurs(entries, j) || j == k {
      if Occurs(entries, j) {
        var i :| 0 <= i < |entries| && entries[i].0 == j;
        assert more[i].0 == j;
      }
    }
    forall j, last | IsLast(more, j, last) ensures table[k := v][j] == more[last].1 {
      if last < |entries| {
        forall i | last < i < |entries| ensures entries[i].0 != j { assert more[i] == entries[i]; }
        assert more[|entries|].0 != j && more[last] == entries[last];
        assert IsLast(entries, j, last);
      }
    }
  }

  /** Every key that occurs has a last entry. */
  lemma {:induction false} HasLast<K, V>(entries: seq<(K, V)>, k: K) returns (last: nat)
    requires Occurs(entries, k)
    ensures IsLast(entries, k, last)
  {
    if entries[|entries| - 1].0 == k {
      last := |entries| - 1;
    } else {
      var i :| 0 <= i < |entries| && entries[i].0 == k;
      assert entries[..|entries| - 1][i].0 == k;
      last := HasLast(entries[..|entries| - 1], k);
    }
  }

  // ---------------------------------------------------------------------------------------------
  // Division with rest, kept apart from everything else.

  lemma {:induction false} QuotientAndRest(x: int, p: int)
    requires p >= 1
    ensures x == (x / p) * p + x % p && 0 <= x % p < p
  {
  }

  lemma {:induction false} AtLeastOnce(d: int, p: int)
    requires d >= 1 && p >= 1
    ensures d * p >= p
  {
    assert (d - 1) * p >= 0;
  }

  lemma {:induction false} SmallMultiple(d: int, p: int, x: int)
    requires p >= 1 && -p < x < p && x == d * p
    ensures d == 0
  {
    if d >= 1 {
      AtLeastOnce(d, p);
    } else if d <= -1 {
      AtLeastOnce(-d, p);
    }
  }

  lemma {:induction false} UniqueQuotient(x: int, p: int, q: int, r: int)
    requires p >= 1 && 0 <= r < p && x == q * p + r
    ensures x / p == q && x % p == r
  {
    QuotientAndRest(x, p);
    var d := x / p - q;
    assert d * p == (x / p) * p - q * p;
    SmallMultiple(d, p, r - x % p);
  }
}
