/**
 * The array operations the page components are built from: `Array.filter`,
 * `findIndex` on a key, key-based removal and `splice`, with the facts about
 * them that the components rely on.
 */
module Seqs {

  /** `Array.prototype.filter`: the elements that satisfy `p`, in their original order. */
  function Filter<T>(s: seq<T>, p: T -> bool): (r: seq<T>)
    ensures |r| <= |s|
    ensures forall i :: 0 <= i < |r| ==> r[i] in s && p(r[i])
    ensures forall i :: 0 <= i < |s| && p(s[i]) ==> s[i] in r
  {
    if s == [] then [] else (if p(s[0]) then [s[0]] else []) + Filter(s[1..], p)
  }

  /** Filtering commutes with concatenation, so a filter keeps relative order. */
  lemma {:induction false} FilterAppend<T>(s: seq<T>, t: seq<T>, p: T -> bool)
    ensures Filter(s + t, p) == Filter(s, p) + Filter(t, p)
  {
    if s == [] {
      assert s + t == t;
    } else {
      assert (s + t)[0] == s[0];
      assert (s + t)[1..] == s[1..] + t;
      FilterAppend(s[1..], t, p);
    }
  }

  /** A filter that every element passes is the identity. */
  lemma {:induction false} FilterKeepsAll<T>(s: seq<T>, p: T -> bool)
    requires forall i :: 0 <= i < |s| ==> p(s[i])
    ensures Filter(s, p) == s
  {
    if s != [] {
      assert p(s[0]);
      FilterKeepsAll(s[1..], p);
    }
  }

  /** A filter that no element passes yields the empty list. */
  lemma {:induction false} FilterDropsAll<T>(s: seq<T>, p: T -> bool)
    requires forall i :: 0 <= i < |s| ==> !p(s[i])
    ensures Filter(s, p) == []
  {
    if s != [] {
      assert !p(s[0]);
      FilterDropsAll(s[1..], p);
    }
  }

  /** Filtering by a predicate and by its negation splits the multiset of elements. */
  lemma {:induction false} FilterSplit<T>(s: seq<T>, p: T -> bool, q: T -> bool)
    requires forall x :: q(x) == !p(x)
    ensures multiset(Filter(s, p)) + multiset(Filter(s, q)) == multiset(s)
    ensures |Filter(s, p)| + |Filter(s, q)| == |s|
  {
    if s != [] {
      FilterSplit(s[1..], p, q);
      assert s == [s[0]] + s[1..];
    }
  }

  /** No two elements of `s` share a key. */
  predicate UniqueKeys<T, K(==)>(s: seq<T>, key: T -> K) {
    forall i, j :: 0 <= i < j < |s| ==> key(s[i]) != key(s[j])
  }

  /** Some element of `s` has key `k` (the truthiness of `s.find(x => key(x) === k)`). */
  predicate HasKey<T, K(==)>(s: seq<T>, key: T -> K, k: K) {
    exists i :: 0 <= i < |s| && key(s[i]) == k
  }

  /** A filter keeps keys unique. */
  lemma {:induction false} FilterUnique<T, K>(s: seq<T>, p: T -> bool, key: T -> K)
    requires UniqueKeys(s, key)
    ensures UniqueKeys(Filter(s, p), key)
  {
    if s != [] {
      var rest := Filter(s[1..], p);
      FilterUnique(s[1..], p, key);
      if p(s[0]) {
        forall y | y in rest ensures key(y) != key(s[0]) {
          var j :| 0 <= j < |s[1..]| && s[1..][j] == y;
          assert s[j + 1] == y;
        }
        var r := [s[0]] + rest;
        forall i, j | 0 <= i < j < |r| ensures key(r[i]) != key(r[j]) {
          if i == 0 {
            assert r[j] == rest[j - 1] && rest[j - 1] in rest;
          } else {
            assert r[i] == rest[i - 1] && r[j] == rest[j - 1];
          }
        }
      }
    }
  }

  /** `findIndex(x => key(x) === k)`: the first index holding key `k`, or -1. */
  function FindKey<T, K(==)>(s: seq<T>, key: T -> K, k: K): (r: int)
    ensures -1 <= r < |s|
    ensures 0 <= r ==> key(s[r]) == k && forall j :: 0 <= j < r ==> key(s[j]) != k
    ensures r == -1 <==> !HasKey(s, key, k)
  {
    if s == [] then -1
    else if key(s[0]) == k then 0
    else
      var r := FindKey(s[1..], key, k);
      assert forall j :: 0 < j < |s| ==> s[j] == s[1..][j - 1];
      if r == -1 then -1 else r + 1
  }

  /** In a list with unique keys, looking an element's key up finds that element's own index. */
  lemma FindKeyOfUnique<T, K>(s: seq<T>, key: T -> K, i: int)
    requires UniqueKeys(s, key) && 0 <= i < |s|
    ensures FindKey(s, key, key(s[i])) == i
  {
    assert HasKey(s, key, key(s[i]));
  }

  /** `s.filter(x => key(x) !== k)`: every element whose key is not `k`, in order. */
  function WithoutKey<T, K(==)>(s: seq<T>, key: T -> K, k: K): (r: seq<T>)
    ensures !HasKey(r, key, k)
    ensures forall i :: 0 <= i < |r| ==> r[i] in s
    ensures forall i :: 0 <= i < |s| && key(s[i]) != k ==> s[i] in r
    ensures UniqueKeys(s, key) ==> UniqueKeys(r, key)
  {
    var r := Filter(s, x => key(x) != k);
    assert UniqueKeys(s, key) ==> UniqueKeys(r, key) by {
      if UniqueKeys(s, key) {
        FilterUnique(s, x => key(x) != k, key);
      }
    }
    r
  }

  /** Removing a key no element carries leaves the list unchanged. */
  lemma WithoutAbsentKey<T, K>(s: seq<T>, key: T -> K, k: K)
    requires !HasKey(s, key, k)
    ensures WithoutKey(s, key, k) == s
  {
    FilterKeepsAll(s, x => key(x) != k);
  }

  /** Removing key `k` from a list whose last element is the only one carrying `k` undoes the append. */
  lemma WithoutAppendedKey<T, K>(s: seq<T>, x: T, key: T -> K)
    requires !HasKey(s, key, key(x))
    ensures WithoutKey(s + [x], key, key(x)) == s
  {
    var p := y => key(y) != key(x);
    FilterAppend(s, [x], p);
    FilterKeepsAll(s, p);
    assert Filter([x], p) == [];
  }

  /** Removing a key distributes over concatenation, so the survivors keep their relative order. */
  lemma WithoutKeyAppend<T, K>(s: seq<T>, t: seq<T>, key: T -> K, k: K)
    ensures WithoutKey(s + t, key, k) == WithoutKey(s, key, k) + WithoutKey(t, key, k)
  {
    FilterAppend(s, t, x => key(x) != k);
  }

  /** `s.map(y => key(y) === key(x) ? x : y)`: every element sharing `x`'s key is replaced by `x`. */
  function ReplaceKey<T, K(==)>(s: seq<T>, key: T -> K, x: T): (r: seq<T>)
    ensures |r| == |s|
    ensures forall i :: 0 <= i < |s| ==> key(r[i]) == key(s[i])
    ensures forall i :: 0 <= i < |s| && key(s[i]) == key(x) ==> r[i] == x
    ensures forall i :: 0 <= i < |s| && key(s[i]) != key(x) ==> r[i] == s[i]
  {
    if s == [] then []
    else [if key(s[0]) == key(x) then x else s[0]] + ReplaceKey(s[1..], key, x)
  }

  /** Replacing by key leaves the keys, so a list with unique keys keeps them unique. */
  lemma ReplaceKeyUnique<T, K>(s: seq<T>, key: T -> K, x: T)
    requires UniqueKeys(s, key)
    ensures UniqueKeys(ReplaceKey(s, key, x), key)
  {
    var r := ReplaceKey(s, key, x);
    forall i, j | 0 <= i < j < |r| ensures key(r[i]) != key(r[j]) {
      assert key(r[i]) == key(s[i]) && key(r[j]) == key(s[j]);
    }
  }

  /** In a list with unique keys, replacing by the key of the element at `i` changes that element only. */
  lemma ReplaceUniqueKey<T, K>(s: seq<T>, key: T -> K, i: int, x: T)
    requires UniqueKeys(s, key) && 0 <= i < |s| && key(x) == key(s[i])
    ensures ReplaceKey(s, key, x) == s[i := x]
  {
    var r := ReplaceKey(s, key, x);
    forall j | 0 <= j < |s| ensures r[j] == s[i := x][j] {
      if j != i {
        assert key(s[j]) != key(s[i]);
      }
    }
  }

  /** Removing key `k` after replacing the elements with key `k` is removing key `k`. */
  lemma {:induction false} WithoutReplaced<T, K>(s: seq<T>, key: T -> K, x: T)
    ensures WithoutKey(ReplaceKey(s, key, x), key, key(x)) == WithoutKey(s, key, key(x))
  {
    if s != [] {
      var r := ReplaceKey(s, key, x);
      assert r == [r[0]] + r[1..] && s == [s[0]] + s[1..];
      assert r[1..] == ReplaceKey(s[1..], key, x);
      WithoutReplaced(s[1..], key, x);
      WithoutKeyAppend([r[0]], r[1..], key, key(x));
      WithoutKeyAppend([s[0]], s[1..], key, key(x));
      if key(s[0]) == key(x) {
        assert WithoutKey([r[0]], key, key(x)) == [] == WithoutKey([s[0]], key, key(x));
      } else {
        assert r[0] == s[0];
      }
    }
  }

  /** Removing the key of the only element that carries it cuts that element out. */
  lemma WithoutSoleKey<T, K>(pre: seq<T>, x: T, post: seq<T>, key: T -> K)
    requires !HasKey(pre, key, key(x)) && !HasKey(post, key, key(x))
    ensures WithoutKey(pre + [x] + post, key, key(x)) == pre + post
  {
    var k := key(x);
    WithoutKeyAppend(pre + [x], post, key, k);
    WithoutKeyAppend(pre, [x], key, k);
    WithoutAbsentKey(pre, key, k);
    WithoutAbsentKey(post, key, k);
    FilterDropsAll([x], y => key(y) != k);
    assert WithoutKey(pre + [x], key, k) == pre;
  }

  /** In a list with unique keys, removing the key of the element at `i` is `splice(i, 1)`. */
  lemma RemoveUniqueKey<T, K>(s: seq<T>, key: T -> K, i: int)
    requires UniqueKeys(s, key) && 0 <= i < |s|
    ensures WithoutKey(s, key, key(s[i])) == RemoveAt(s, i)
  {
    var k := key(s[i]);
    var pre, post := s[..i], s[i + 1..];
    assert !HasKey(pre, key, k) by {
      forall j | 0 <= j < |pre| ensures key(pre[j]) != k {
        assert pre[j] == s[j];
      }
    }
    assert !HasKey(post, key, k) by {
      forall j | 0 <= j < |post| ensures key(post[j]) != k {
        assert post[j] == s[i + 1 + j];
      }
    }
    assert s == pre + [s[i]] + post;
    WithoutSoleKey(pre, s[i], post, key);
  }

  /** `a.splice(i, 1)`: the list without its element at index `i`. */
  function RemoveAt<T>(s: seq<T>, i: int): (r: seq<T>)
    requires 0 <= i < |s|
    ensures |r| == |s| - 1
    ensures multiset(r) + multiset{s[i]} == multiset(s)
  {
    assert s == s[..i] + [s[i]] + s[i + 1..];
    s[..i] + s[i + 1..]
  }

  /** `a.splice(i, 0, x)`: the list with `x` inserted so that it sits at index `i`. */
  function InsertAt<T>(s: seq<T>, i: int, x: T): (r: seq<T>)
    requires 0 <= i <= |s|
    ensures |r| == |s| + 1 && r[i] == x
    ensures multiset(r) == multiset(s) + multiset{x}
    ensures RemoveAt(r, i) == s
  {
    var r := s[..i] + [x] + s[i..];
    assert r[..i] == s[..i] && r[i + 1..] == s[i..];
    assert s == s[..i] + s[i..];
    r
  }

  /** Inserting back the element removed from index `i` restores the list. */
  lemma InsertRemoved<T>(s: seq<T>, i: int)
    requires 0 <= i < |s|
    ensures InsertAt(RemoveAt(s, i), i, s[i]) == s
  {
    var rest := RemoveAt(s, i);
    assert rest[..i] == s[..i] && rest[i..] == s[i + 1..];
    assert s == s[..i] + [s[i]] + s[i + 1..];
  }

  /** The drag-reorder of a list: take out the element at `from` and re-insert it at `to`. */
  function Move<T>(s: seq<T>, from: int, to: int): (r: seq<T>)
    requires 0 <= from < |s| && 0 <= to < |s|
    ensures |r| == |s|
    ensures multiset(r) == multiset(s)
    ensures r[to] == s[from]
    ensures RemoveAt(r, to) == RemoveAt(s, from)
  {
    InsertAt(RemoveAt(s, from), to, s[from])
  }

  /** A move to the index an element already has changes nothing. */
  lemma MoveInPlace<T>(s: seq<T>, i: int)
    requires 0 <= i < |s|
    ensures Move(s, i, i) == s
  {
    InsertRemoved(s, i);
  }

  /** Moving the element back to where it came from undoes a move. */
  lemma MoveBack<T>(s: seq<T>, from: int, to: int)
    requires 0 <= from < |s| && 0 <= to < |s|
    ensures Move(Move(s, from, to), to, from) == s
  {
    var m := Move(s, from, to);
    InsertRemoved(s, from);
    assert Move(m, to, from) == InsertAt(RemoveAt(s, from), from, s[from]);
  }
}
