/**
 * The two table operations the dashboard borrows from pandas, over tables
 * modelled as sequences of rows: selection by a boolean mask (`df[mask]`,
 * `dropna`) and the inner merge on a string key (`pd.merge(..., how="inner")`).
 */
module Frames {

  /** `a` is obtained from `b` by deleting rows, without reordering the rest. */
  predicate IsSubsequence<T(==)>(a: seq<T>, b: seq<T>)
    decreases |b|
  {
    if a == [] then true
    else if b == [] then false
    else (a[0] == b[0] && IsSubsequence(a[1..], b[1..])) || IsSubsequence(a, b[1..])
  }

  /**
   * The rows of `s` for which `keep` holds, in their original order (a boolean
   * mask): each passing row occurs as often as in `s`, each failing row not at all.
   */
  function Where<T(!new)>(s: seq<T>, keep: T -> bool): (r: seq<T>)
    ensures |r| <= |s|
    ensures forall x :: x in r <==> x in s && keep(x)
    ensures forall x :: multiset(r)[x] == if keep(x) then multiset(s)[x] else 0
  {
    if s == [] then []
    else
      assert s == [s[0]] + s[1..];
      (if keep(s[0]) then [s[0]] else []) + Where(s[1..], keep)
  }

  /** Selection keeps the order of the rows it keeps. */
  lemma {:induction false} WhereIsSubsequence<T(!new)>(s: seq<T>, keep: T -> bool)
    ensures IsSubsequence(Where(s, keep), s)
  {
    if s != [] {
      WhereIsSubsequence(s[1..], keep);
      var w := Where(s[1..], keep);
      if keep(s[0]) {
        assert Where(s, keep) == [s[0]] + w;
        assert ([s[0]] + w)[1..] == w;
      } else {
        assert Where(s, keep) == w;
      }
    }
  }

  /** A mask that every row passes selects the whole table. */
  lemma {:induction false} WhereAll<T(!new)>(s: seq<T>, keep: T -> bool)
    requires forall x :: x in s ==> keep(x)
    ensures Where(s, keep) == s
  {
    if s != [] {
      assert s[0] in s;
      assert forall x :: x in s[1..] ==> x in s;
      WhereAll(s[1..], keep);
      assert [s[0]] + s[1..] == s;
    }
  }

  /** Selecting twice with the same mask is selecting once. */
  lemma WhereIdempotent<T(!new)>(s: seq<T>, keep: T -> bool)
    ensures Where(Where(s, keep), keep) == Where(s, keep)
  {
    WhereAll(Where(s, keep), keep);
  }

  /** Masks that agree on every row select the same rows. */
  lemma {:induction false} WhereSameMask<T(!new)>(s: seq<T>, p: T -> bool, q: T -> bool)
    requires forall x :: p(x) == q(x)
    ensures Where(s, p) == Where(s, q)
  {
    if s != [] {
      WhereSameMask(s[1..], p, q);
    }
  }

  /** Selecting by `p` and then by `q` is selecting by both at once. */
  lemma {:induction false} WhereWhere<T(!new)>(s: seq<T>, p: T -> bool, q: T -> bool, pq: T -> bool)
    requires forall x :: pq(x) == (p(x) && q(x))
    ensures Where(Where(s, p), q) == Where(s, pq)
  {
    if s != [] {
      WhereWhere(s[1..], p, q, pq);
      var w := Where(s[1..], p);
      if p(s[0]) {
        assert Where(s, p) == [s[0]] + w;
        assert ([s[0]] + w)[1..] == w;
        assert Where(Where(s, p), q) == (if q(s[0]) then [s[0]] else []) + Where(w, q);
      } else {
        assert Where(s, p) == w;
      }
    }
  }

  /** One column of a table, row by row: `df[col]` for the column that `f` reads. */
  function Project<T(!new), K>(s: seq<T>, f: T -> K): (ks: seq<K>)
    ensures |ks| == |s|
    ensures forall i :: 0 <= i < |s| ==> ks[i] == f(s[i])
  {
    if s == [] then [] else [f(s[0])] + Project(s[1..], f)
  }

  /** The set of keys that occur in a table. */
  ghost function KeySet<T(!new)>(s: seq<T>, key: T -> string): (ks: set<string>)
    ensures forall k :: k in ks <==> exists x :: x in s && key(x) == k
  {
    set x | x in s :: key(x)
  }

  /** No key occurs in two rows. */
  predicate UniqueKeys<T(!new)>(s: seq<T>, key: T -> string)
  {
    forall i, j :: 0 <= i < j < |s| ==> key(s[i]) != key(s[j])
  }

  /** A row whose key no row of `w` has can go in front of `w`. */
  lemma PrependUnique<T(!new)>(x: T, w: seq<T>, key: T -> string)
    requires UniqueKeys(w, key)
    requires forall y :: y in w ==> key(y) != key(x)
    ensures UniqueKeys([x] + w, key)
  {
  }

  /** Selection cannot repeat a key: the kept rows are rows of `s`. */
  lemma {:induction false} WhereUnique<T(!new)>(s: seq<T>, keep: T -> bool, key: T -> string)
    requires UniqueKeys(s, key)
    ensures UniqueKeys(Where(s, keep), key)
  {
    if s != [] {
      var rest := s[1..];
      assert UniqueKeys(rest, key) by {
        forall i, j | 0 <= i < j < |rest| ensures key(rest[i]) != key(rest[j]) {
          assert rest[i] == s[i + 1] && rest[j] == s[j + 1];
        }
      }
      WhereUnique(rest, keep, key);
      var w := Where(rest, keep);
      if keep(s[0]) {
        forall y | y in w ensures key(y) != key(s[0]) {
          var j :| 0 <= j < |rest| && rest[j] == y;
          assert y == s[j + 1];
        }
        PrependUnique(s[0], w, key);
        assert [s[0]] + w == Where(s, keep);
      } else {
        assert w == Where(s, keep);
      }
    }
  }

  /** The rows of `right` that match `l` on the key, merged with `l`, in the order of `right`. */
  function Matches<L(!new), R(!new), O(!new)>(l: L, right: seq<R>, lkey: L -> string, rkey: R -> string, merge: (L, R) -> O): (out: seq<O>)
    ensures forall o :: o in out ==> exists r :: r in right && rkey(r) == lkey(l) && o == merge(l, r)
    ensures forall r :: r in right && rkey(r) == lkey(l) ==> merge(l, r) in out
  {
    if right == [] then []
    else (if rkey(right[0]) == lkey(l) then [merge(l, right[0])] else [])
         + Matches(l, right[1..], lkey, rkey, merge)
  }

  /**
   * Inner merge on the key: every left row is paired with every right row
   * that has the same key, left rows in their order and, for each, the
   * matching right rows in theirs. A key found on one side only yields nothing.
   */
  function InnerJoin<L(!new), R(!new), O(!new)>(left: seq<L>, right: seq<R>, lkey: L -> string, rkey: R -> string, merge: (L, R) -> O): (out: seq<O>)
    ensures forall o :: o in out ==> exists l, r :: l in left && r in right && lkey(l) == rkey(r) && o == merge(l, r)
    ensures forall l, r :: l in left && r in right && lkey(l) == rkey(r) ==> merge(l, r) in out
  {
    if left == [] then []
    else Matches(left[0], right, lkey, rkey, merge) + InnerJoin(left[1..], right, lkey, rkey, merge)
  }

  /**
   * When the merged row carries the left row's key, a key is in the joined
   * table exactly when it is in both inputs.
   */
  lemma JoinKeys<L(!new), R(!new), O(!new)>(left: seq<L>, right: seq<R>, lkey: L -> string, rkey: R -> string, merge: (L, R) -> O, okey: O -> string)
    requires forall l, r :: okey(merge(l, r)) == lkey(l)
    ensures KeySet(InnerJoin(left, right, lkey, rkey, merge), okey) == KeySet(left, lkey) * KeySet(right, rkey)
  {
    var out := InnerJoin(left, right, lkey, rkey, merge);
    var ko, kl, kr := KeySet(out, okey), KeySet(left, lkey), KeySet(right, rkey);
    forall k | k in ko ensures k in kl && k in kr {
      var o :| o in out && okey(o) == k;
      var l, r :| l in left && r in right && lkey(l) == rkey(r) && o == merge(l, r);
      assert okey(o) == lkey(l);
    }
    forall k | k in kl && k in kr ensures k in ko {
      var l :| l in left && lkey(l) == k;
      var r :| r in right && rkey(r) == k;
      assert merge(l, r) in out;
      assert okey(merge(l, r)) == k;
    }
  }

  /** Against a right table with unique keys, a left row matches at most one right row. */
  lemma {:induction false} MatchesUnique<L(!new), R(!new), O(!new)>(l: L, right: seq<R>, lkey: L -> string, rkey: R -> string, merge: (L, R) -> O, okey: O -> string)
    requires UniqueKeys(right, rkey)
    requires forall l', r :: okey(merge(l', r)) == lkey(l')
    ensures Project(Matches(l, right, lkey, rkey, merge), okey)
            == if lkey(l) in KeySet(right, rkey) then [lkey(l)] else []
  {
    if right != [] {
      var rest := right[1..];
      assert UniqueKeys(rest, rkey) by {
        forall i, j | 0 <= i < j < |rest| ensures rkey(rest[i]) != rkey(rest[j]) {
          assert rest[i] == right[i + 1] && rest[j] == right[j + 1];
        }
      }
      MatchesUnique(l, rest, lkey, rkey, merge, okey);
      var m := Matches(l, rest, lkey, rkey, merge);
      if rkey(right[0]) == lkey(l) {
        assert lkey(l) !in KeySet(rest, rkey);
        assert m == [];
        assert Matches(l, right, lkey, rkey, merge) == [merge(l, right[0])];
      } else {
        assert Matches(l, right, lkey, rkey, merge) == m;
        assert KeySet(right, rkey) == {rkey(right[0])} + KeySet(rest, rkey) by {
          assert right == [right[0]] + rest;
        }
      }
    }
  }

  lemma {:induction false} ProjectAppend<T(!new), K>(a: seq<T>, b: seq<T>, f: T -> K)
    ensures Project(a + b, f) == Project(a, f) + Project(b, f)
  {
  }

  /**
   * When the right keys are unique, the joined table has one row per left row
   * whose key the right table has, in the left table's order.
   */
  lemma {:induction false} JoinUniqueKeys<L(!new), R(!new), O(!new)>(left: seq<L>, right: seq<R>, lkey: L -> string, rkey: R -> string, merge: (L, R) -> O, okey: O -> string, matched: L -> bool)
    requires UniqueKeys(right, rkey)
    requires forall l, r :: okey(merge(l, r)) == lkey(l)
    requires forall l :: matched(l) == (lkey(l) in KeySet(right, rkey))
    ensures Project(InnerJoin(left, right, lkey, rkey, merge), okey) == Project(Where(left, matched), lkey)
  {
    if left != [] {
      JoinUniqueKeys(left[1..], right, lkey, rkey, merge, okey, matched);
      MatchesUnique(left[0], right, lkey, rkey, merge, okey);
      ProjectAppend(Matches(left[0], right, lkey, rkey, merge), InnerJoin(left[1..], right, lkey, rkey, merge), okey);
      ProjectAppend(if matched(left[0]) then [left[0]] else [], Where(left[1..], matched), lkey);
    }
  }

  /**
   * Two tables with the same key column, filtered by masks that look only at
   * the key, still have the same key column.
   */
  lemma {:induction false} WhereSameKeys<A(!new), B(!new)>(a: seq<A>, b: seq<B>, ka: A -> string, kb: B -> string, pa: A -> bool, pb: B -> bool, keep: string -> bool)
    requires Project(a, ka) == Project(b, kb)
    requires forall x :: pa(x) == keep(ka(x))
    requires forall y :: pb(y) == keep(kb(y))
    ensures Project(Where(a, pa), ka) == Project(Where(b, pb), kb)
  {
    if a != [] {
      assert |b| == |a| && Project(a, ka)[0] == Project(b, kb)[0];
      assert Project(a[1..], ka) == Project(a, ka)[1..];
      assert Project(b[1..], kb) == Project(b, kb)[1..];
      WhereSameKeys(a[1..], b[1..], ka, kb, pa, pb, keep);
      ProjectAppend(if pa(a[0]) then [a[0]] else [], Where(a[1..], pa), ka);
      ProjectAppend(if pb(b[0]) then [b[0]] else [], Where(b[1..], pb), kb);
    }
  }

  lemma {:induction false} SubsequenceTransitive<T>(a: seq<T>, b: seq<T>, c: seq<T>)
    requires IsSubsequence(a, b) && IsSubsequence(b, c)
    ensures IsSubsequence(a, c)
    decreases |c|
  {
    if a != [] && c != [] {
      if b[0] == c[0] && IsSubsequence(b[1..], c[1..]) {
        if a[0] == b[0] && IsSubsequence(a[1..], b[1..]) {
          SubsequenceTransitive(a[1..], b[1..], c[1..]);
        } else {
          SubsequenceTransitive(a, b[1..], c[1..]);
        }
      } else {
        SubsequenceTransitive(a, b, c[1..]);
      }
    }
  }
}
