/**
 * Sequence operations that stand for the relational queries of the store:
 * `Filter` is a `SELECT … WHERE`, `RemoveFirst` is `list.remove` of the
 * first match, and `Keyed` says that a column is a key of a table.
 */
module Seqs {
  import opened Wrappers

  /** The rows of `s` satisfying `p`, in their original order. */
  function Filter<T(!new)>(p: T -> bool, s: seq<T>): (r: seq<T>)
    ensures |r| <= |s|
    ensures forall x :: x in r <==> x in s && p(x)
    ensures forall i :: 0 <= i < |r| ==> p(r[i])
  {
    if s == [] then []
    else if p(s[0]) then [s[0]] + Filter(p, s[1..])
    else Filter(p, s[1..])
  }

  lemma {:induction false} FilterAppend<T(!new)>(p: T -> bool, s: seq<T>, x: T)
    ensures Filter(p, s + [x]) == Filter(p, s) + (if p(x) then [x] else [])
  {
    if s != [] {
      assert (s + [x])[1..] == s[1..] + [x];
      FilterAppend(p, s[1..], x);
    } else {
      assert s + [x] == [x];
    }
  }

  /** Filtering on `p` and then on `q` is filtering on `q` when `q` implies `p`. */
  lemma {:induction false} FilterFilter<T(!new)>(p: T -> bool, q: T -> bool, s: seq<T>)
    requires forall x :: q(x) ==> p(x)
    ensures Filter(q, Filter(p, s)) == Filter(q, s)
  {
    if s != [] {
      FilterFilter(p, q, s[1..]);
    }
  }

  /** A filter that keeps nothing of `s` gives the empty sequence. */
  lemma {:induction false} FilterNone<T(!new)>(p: T -> bool, s: seq<T>)
    requires forall i :: 0 <= i < |s| ==> !p(s[i])
    ensures Filter(p, s) == []
  {
    if s != [] {
      FilterNone(p, s[1..]);
    }
  }

  /** Two appends in a row are one append of a pair. */
  lemma AppendPair<T>(s: seq<T>, a: T, b: T)
    ensures s + [a] + [b] == s + [a, b]
  {
  }

  /** Three appends in a row are one append of a triple. */
  lemma AppendTriple<T>(s: seq<T>, a: T, b: T, c: T)
    ensures s + [a] + [b] + [c] == s + [a, b, c]
    ensures s + [a, b] + [c] == s + [a, b, c]
  {
  }

  /** Replacing one element by another that `p` judges alike keeps the filter's length. */
  lemma {:induction false} FilterLengthReplace<T(!new)>(p: T -> bool, s: seq<T>, i: nat, x: T)
    requires i < |s| && p(x) == p(s[i])
    ensures |Filter(p, s[i := x])| == |Filter(p, s)|
  {
    if i == 0 {
      assert s[i := x][1..] == s[1..];
    } else {
      assert s[i := x][1..] == s[1..][i - 1 := x];
      FilterLengthReplace(p, s[1..], i - 1, x);
    }
  }

  /** `list.remove(x)` of the first element satisfying `p`; `s` itself when none does. */
  function RemoveFirst<T(!new)>(p: T -> bool, s: seq<T>): (r: seq<T>)
    ensures |r| == |s| || |r| == |s| - 1
    ensures forall x :: x in r ==> x in s
  {
    if s == [] then []
    else if p(s[0]) then s[1..]
    else [s[0]] + RemoveFirst(p, s[1..])
  }

  /** Python's `next((x for x in s if p(x)), None)`. */
  function FirstMatch<T(!new)>(p: T -> bool, s: seq<T>): (r: Option<T>)
    ensures r.None? <==> forall i :: 0 <= i < |s| ==> !p(s[i])
    ensures r.Some? ==> r.value in s && p(r.value)
  {
    if s == [] then None
    else if p(s[0]) then Some(s[0])
    else FirstMatch(p, s[1..])
  }

  /**
   * Removing the first match takes out exactly the element at the first
   * matching position `i` and keeps everything around it in order; that
   * element is also what `FirstMatch` finds.
   */
  lemma {:induction false} RemoveFirstAt<T(!new)>(p: T -> bool, s: seq<T>, i: nat)
    requires i < |s| && p(s[i])
    requires forall k :: 0 <= k < i ==> !p(s[k])
    ensures RemoveFirst(p, s) == s[..i] + s[i + 1..]
    ensures FirstMatch(p, s) == Some(s[i])
  {
    if i > 0 {
      assert !p(s[0]);
      RemoveFirstAt(p, s[1..], i - 1);
      assert s[..i] == [s[0]] + s[1..][..i - 1];
      assert s[i + 1..] == s[1..][i..];
    }
  }

  /** With no match, removing the first match changes nothing. */
  lemma {:induction false} RemoveFirstNoMatch<T(!new)>(p: T -> bool, s: seq<T>)
    requires forall k :: 0 <= k < |s| ==> !p(s[k])
    ensures RemoveFirst(p, s) == s
  {
    if s != [] {
      assert !p(s[0]);
      RemoveFirstNoMatch(p, s[1..]);
    }
  }

  /**
   * Removing the first row matching `q` from the whole table and then
   * selecting on `p` is the same as removing the first match from the
   * selection, when every `q`-row is a `p`-row: this is why removing a
   * social from `card.socials` removes that row from the socials table.
   */
  lemma {:induction false} FilterRemoveFirst<T(!new)>(p: T -> bool, q: T -> bool, s: seq<T>)
    requires forall x :: q(x) ==> p(x)
    ensures Filter(p, RemoveFirst(q, s)) == RemoveFirst(q, Filter(p, s))
  {
    if s != [] && !q(s[0]) {
      FilterRemoveFirst(p, q, s[1..]);
      assert RemoveFirst(q, s) == [s[0]] + RemoveFirst(q, s[1..]);
      assert ([s[0]] + RemoveFirst(q, s[1..]))[1..] == RemoveFirst(q, s[1..]);
    }
  }

  /** The column `key` is a key of the table `s`: no two rows share it. */
  ghost predicate Keyed<T(!new), K>(key: T -> K, s: seq<T>)
  {
    forall i, j :: 0 <= i < j < |s| ==> key(s[i]) != key(s[j])
  }

  /** Every key in `s` lies below `next`: `next` is still unused. */
  ghost predicate KeysBelow<T(!new)>(key: T -> int, s: seq<T>, next: int)
  {
    forall i :: 0 <= i < |s| ==> key(s[i]) < next
  }

  /** A prefix of a keyed table is keyed. */
  lemma KeyedPrefix<T(!new), K>(key: T -> K, s: seq<T>, n: nat)
    requires Keyed(key, s) && n <= |s|
    ensures Keyed(key, s[..n])
  {
    var t := s[..n];
    forall i, j | 0 <= i < j < |t| ensures key(t[i]) != key(t[j]) {
      assert t[i] == s[i] && t[j] == s[j];
    }
  }

  /** Appending a row whose key no row has yet keeps the column a key. */
  lemma KeyedAppendFresh<T(!new), K>(key: T -> K, s: seq<T>, x: T)
    requires Keyed(key, s)
    requires forall i :: 0 <= i < |s| ==> key(s[i]) != key(x)
    ensures Keyed(key, s + [x])
  {
    var t := s + [x];
    forall i, j | 0 <= i < j < |t| ensures key(t[i]) != key(t[j]) {
      if j == |s| {
        assert t[i] == s[i] && t[j] == x;
      } else {
        assert t[i] == s[i] && t[j] == s[j];
      }
    }
  }

  /** Appending a row whose key is the next unused one keeps the column a key. */
  lemma KeyedAppend<T(!new)>(key: T -> int, s: seq<T>, next: int, x: T)
    requires Keyed(key, s) && KeysBelow(key, s, next) && key(x) == next
    ensures Keyed(key, s + [x]) && KeysBelow(key, s + [x], next + 1)
  {
    KeyedAppendFresh(key, s, x);
  }

  /** A selection of a keyed table is keyed. */
  lemma {:induction false} KeyedFilter<T(!new), K>(key: T -> K, p: T -> bool, s: seq<T>)
    requires Keyed(key, s)
    ensures Keyed(key, Filter(p, s))
  {
    if s != [] {
      KeyedTail(key, s);
      KeyedFilter(key, p, s[1..]);
      var rest := Filter(p, s[1..]);
      if p(s[0]) {
        var r := [s[0]] + rest;
        forall i, j | 0 <= i < j < |r| ensures key(r[i]) != key(r[j]) {
          if i == 0 {
            assert r[j] in s[1..];
            var k :| 0 <= k < |s[1..]| && s[1..][k] == r[j];
            assert s[k + 1] == r[j];
          } else {
            assert r[i] == rest[i - 1] && r[j] == rest[j - 1];
          }
        }
      }
    }
  }

  /** A selection of a keyed table on a single key value has at most one row. */
  lemma {:induction false} KeyedSelectAtMostOne<T(!new), K>(key: T -> K, p: T -> bool, k: K, s: seq<T>)
    requires Keyed(key, s)
    requires forall x :: p(x) ==> key(x) == k
    ensures |Filter(p, s)| <= 1
  {
    if s != [] {
      if p(s[0]) {
        forall i | 0 <= i < |s[1..]| ensures !p(s[1..][i]) {
          assert s[1..][i] == s[i + 1];
          assert key(s[0]) != key(s[i + 1]);
        }
        FilterNone(p, s[1..]);
      } else {
        KeyedTail(key, s);
        KeyedSelectAtMostOne(key, p, k, s[1..]);
      }
    }
  }

  lemma KeyedTail<T(!new), K>(key: T -> K, s: seq<T>)
    requires Keyed(key, s) && s != []
    ensures Keyed(key, s[1..])
  {
    forall i, j | 0 <= i < j < |s[1..]| ensures key(s[1..][i]) != key(s[1..][j]) {
      assert s[1..][i] == s[i + 1] && s[1..][j] == s[j + 1];
    }
  }

  /** Removing one row of a keyed table leaves it keyed. */
  lemma {:induction false} KeyedRemoveFirst<T(!new), K>(key: T -> K, p: T -> bool, s: seq<T>)
    requires Keyed(key, s)
    ensures Keyed(key, RemoveFirst(p, s))
  {
    if s != [] && !p(s[0]) {
      KeyedTail(key, s);
      KeyedRemoveFirst(key, p, s[1..]);
      var rest := RemoveFirst(p, s[1..]);
      var r := [s[0]] + rest;
      forall i, j | 0 <= i < j < |r| ensures key(r[i]) != key(r[j]) {
        if i == 0 {
          assert r[j] in s[1..];
          var m :| 0 <= m < |s[1..]| && s[1..][m] == r[j];
          assert s[m + 1] == r[j];
        } else {
          assert r[i] == rest[i - 1] && r[j] == rest[j - 1];
        }
      }
    } else if s != [] {
      KeyedTail(key, s);
    }
  }

  /** `UPDATE … SET f WHERE p`: every row satisfying `p` is replaced by its image under `f`. */
  function UpdateWhere<T(!new)>(p: T -> bool, f: T -> T, s: seq<T>): (r: seq<T>)
    ensures |r| == |s|
    ensures forall i :: 0 <= i < |s| ==> r[i] == if p(s[i]) then f(s[i]) else s[i]
  {
    if s == [] then []
    else [if p(s[0]) then f(s[0]) else s[0]] + UpdateWhere(p, f, s[1..])
  }

  /** An update that does not change the key column keeps the table keyed. */
  lemma KeyedUpdateWhere<T(!new)>(key: T -> int, p: T -> bool, f: T -> T, s: seq<T>, next: int)
    requires forall x :: key(f(x)) == key(x)
    requires Keyed(key, s) && KeysBelow(key, s, next)
    ensures Keyed(key, UpdateWhere(p, f, s)) && KeysBelow(key, UpdateWhere(p, f, s), next)
  {
    var r := UpdateWhere(p, f, s);
    assert forall i :: 0 <= i < |s| ==> key(r[i]) == key(s[i]);
  }

  /** Running an update whose image is a fixed point of `f` a second time changes nothing. */
  lemma UpdateWhereIdempotent<T(!new)>(p: T -> bool, f: T -> T, s: seq<T>)
    requires forall x :: p(x) ==> f(f(x)) == f(x)
    ensures UpdateWhere(p, f, UpdateWhere(p, f, s)) == UpdateWhere(p, f, s)
  {
    var once := UpdateWhere(p, f, s);
    var twice := UpdateWhere(p, f, once);
    forall i | 0 <= i < |s| ensures twice[i] == once[i] {
      if p(s[i]) {
        assert once[i] == f(s[i]);
      }
    }
  }

  /**
   * An update confined to rows outside the selection `q`, whose images also
   * stay outside `q`, leaves the selection as it was.
   */
  lemma {:induction false} FilterUpdateWhereDisjoint<T(!new)>(p: T -> bool, q: T -> bool, f: T -> T, s: seq<T>)
    requires forall x :: p(x) ==> !q(x) && !q(f(x))
    ensures Filter(q, UpdateWhere(p, f, s)) == Filter(q, s)
  {
    if s != [] {
      FilterUpdateWhereDisjoint(p, q, f, s[1..]);
      var r := UpdateWhere(p, f, s);
      assert r[1..] == UpdateWhere(p, f, s[1..]);
    }
  }

  /** After an update that takes every selected row out of the selection `q`, no row of `p` is in `q`. */
  lemma FilterUpdateWhereCleared<T(!new)>(p: T -> bool, q: T -> bool, f: T -> T, s: seq<T>)
    requires forall x :: q(x) ==> p(x)
    requires forall x :: p(x) ==> !q(f(x))
    ensures Filter(q, UpdateWhere(p, f, s)) == []
  {
    var r := UpdateWhere(p, f, s);
    forall i | 0 <= i < |r| ensures !q(r[i]) {
      if p(s[i]) { assert r[i] == f(s[i]); } else { assert r[i] == s[i]; }
    }
    FilterNone(q, r);
  }

  /** Filtering on `q` what was already filtered on a `p` disjoint from it keeps nothing. */
  lemma FilterDisjoint<T(!new)>(p: T -> bool, q: T -> bool, s: seq<T>)
    requires forall x :: p(x) ==> !q(x)
    ensures Filter(q, Filter(p, s)) == []
  {
    var r := Filter(p, s);
    assert forall i :: 0 <= i < |r| ==> p(r[i]);
    FilterNone(q, r);
  }
}
