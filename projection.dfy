/**
 * The list shown on the home screen: the notices whose title or content
 * contains the search string, newest first (the `filteredNotices` memo).
 */
module Projection {
  import opened Types
  import opened Seqs

  /** `String.prototype.includes`: `q` occurs in `s` at some position; the empty string occurs everywhere. */
  predicate Contains(s: string, q: string)
    ensures q <= s ==> Contains(s, q)
    ensures Contains(s, q) ==> |q| <= |s|
  {
    assert s[0..] == s;
    exists i :: 0 <= i <= |s| && q <= s[i..]
  }

  /** The search predicate: case-sensitive substring match on title or content. */
  predicate Matches(n: Notice, q: string)
    ensures Matches(n, q) ==> |q| <= |n.title| || |q| <= |n.content|
  {
    Contains(n.title, q) || Contains(n.content, q)
  }

  /** The notices that survive the search box, in list order. */
  function Filter(ns: seq<Notice>, q: string): (r: seq<Notice>)
    ensures |r| <= |ns|
    ensures forall n :: n in r <==> n in ns && Matches(n, q)
  {
    Keep(ns, n => Matches(n, q))
  }

  /** The notices of `s` created at instant `k`, in their order in `s`. */
  function AtTime(s: seq<Notice>, k: int): seq<Notice> {
    Keep(s, (n: Notice) => n.createdAt == k)
  }

  /** Ordered by `createdAt`, largest first. */
  ghost predicate NewestFirst(s: seq<Notice>) {
    forall i, j :: 0 <= i < j < |s| ==> s[i].createdAt >= s[j].createdAt
  }

  /**
   * Places `x` in front of the first notice that is not newer than it: one
   * step of a stable sort with comparator `b.createdAt - a.createdAt`.
   */
  function Insert(x: Notice, t: seq<Notice>): (r: seq<Notice>)
    ensures multiset(r) == multiset{x} + multiset(t)
  {
    if t == [] || t[0].createdAt <= x.createdAt then [x] + t
    else
      assert t == [t[0]] + t[1..];
      [t[0]] + Insert(x, t[1..])
  }

  /** The stable descending sort by `createdAt` that `Array.prototype.sort` performs. */
  function SortNewestFirst(s: seq<Notice>): (r: seq<Notice>)
    ensures multiset(r) == multiset(s)
    ensures NewestFirst(r)
  {
    if s == [] then []
    else
      var rest := SortNewestFirst(s[1..]);
      InsertNewestFirst(s[0], rest);
      assert s == [s[0]] + s[1..];
      Insert(s[0], rest)
  }

  /** The home-screen list: filter by the query, then sort newest first. */
  function Project(ns: seq<Notice>, q: string): (r: seq<Notice>)
    ensures NewestFirst(r)
    ensures forall n :: n in r <==> n in ns && Matches(n, q)
  {
    var f := Filter(ns, q);
    var r := SortNewestFirst(f);
    assert forall n :: n in r <==> n in multiset(f);
    r
  }

  /** Every notice of `s` is at most as new as `b`. */
  ghost predicate NoNewerThan(s: seq<Notice>, b: int) {
    forall i :: 0 <= i < |s| ==> s[i].createdAt <= b
  }

  lemma ConsNewestFirst(h: Notice, tail: seq<Notice>)
    requires NewestFirst(tail) && NoNewerThan(tail, h.createdAt)
    ensures NewestFirst([h] + tail)
  {
    var r := [h] + tail;
    forall i, j | 0 <= i < j < |r| ensures r[i].createdAt >= r[j].createdAt {
      assert r[j] == tail[j - 1];
      if i > 0 {
        assert r[i] == tail[i - 1];
      }
    }
  }

  lemma {:induction false} InsertNoNewerThan(x: Notice, t: seq<Notice>, b: int)
    requires NoNewerThan(t, b) && x.createdAt <= b
    ensures NoNewerThan(Insert(x, t), b)
  {
    if t != [] && t[0].createdAt > x.createdAt {
      InsertNoNewerThan(x, t[1..], b);
      var r := Insert(x, t);
      forall i | 0 <= i < |r| ensures r[i].createdAt <= b {
        if i > 0 {
          assert r[i] == Insert(x, t[1..])[i - 1];
        }
      }
    }
  }

  lemma {:induction false} InsertNewestFirst(x: Notice, t: seq<Notice>)
    requires NewestFirst(t)
    ensures NewestFirst(Insert(x, t))
  {
    if t == [] || t[0].createdAt <= x.createdAt {
      assert NoNewerThan(t, x.createdAt) by {
        forall i | 0 <= i < |t| ensures t[i].createdAt <= x.createdAt {
          if i > 0 {
            assert t[0].createdAt >= t[i].createdAt;
          }
        }
      }
      ConsNewestFirst(x, t);
    } else {
      var rest := t[1..];
      assert NewestFirst(rest) by {
        forall i, j | 0 <= i < j < |rest| ensures rest[i].createdAt >= rest[j].createdAt {
          assert rest[i] == t[i + 1] && rest[j] == t[j + 1];
        }
      }
      assert NoNewerThan(rest, t[0].createdAt) by {
        forall i | 0 <= i < |rest| ensures rest[i].createdAt <= t[0].createdAt {
          assert rest[i] == t[i + 1];
        }
      }
      InsertNewestFirst(x, rest);
      InsertNoNewerThan(x, rest, t[0].createdAt);
      ConsNewestFirst(t[0], Insert(x, rest));
    }
  }

  /** A one-notice list keeps its notice exactly when it has timestamp `k`. */
  lemma AtTimeOne(n: Notice, k: int)
    ensures AtTime([n], k) == if n.createdAt == k then [n] else []
  {
    assert [n][1..] == [];
  }

  /** Two lists of which one is empty can be swapped in front of a third. */
  lemma SwapEmpty(u: seq<Notice>, v: seq<Notice>, w: seq<Notice>)
    requires u == [] || v == []
    ensures u + (v + w) == v + (u + w)
  {
  }

  /** Inserting `x` puts it in front of every notice with the same timestamp. */
  lemma {:induction false} InsertAtTime(x: Notice, t: seq<Notice>, k: int)
    ensures AtTime(Insert(x, t), k) == (if x.createdAt == k then [x] else []) + AtTime(t, k)
  {
    var p := (n: Notice) => n.createdAt == k;
    AtTimeOne(x, k);
    if t == [] || t[0].createdAt <= x.createdAt {
      KeepConcat([x], t, p);
    } else {
      var tail := Insert(x, t[1..]);
      assert Insert(x, t) == [t[0]] + tail;
      assert t == [t[0]] + t[1..];
      InsertAtTime(x, t[1..], k);
      AtTimeOne(t[0], k);
      KeepConcat([t[0]], tail, p);
      KeepConcat([t[0]], t[1..], p);
      // t[0] is strictly newer than x, so at most one of them has timestamp k.
      SwapEmpty(AtTime([t[0]], k), AtTime([x], k), AtTime(t[1..], k));
    }
  }

  /**
   * The sort is stable: the notices sharing any one timestamp leave it in
   * the order they entered it.
   */
  lemma {:induction false} SortStable(s: seq<Notice>, k: int)
    ensures AtTime(SortNewestFirst(s), k) == AtTime(s, k)
  {
    if s != [] {
      SortStable(s[1..], k);
      InsertAtTime(s[0], SortNewestFirst(s[1..]), k);
      KeepConcat([s[0]], s[1..], (n: Notice) => n.createdAt == k);
      assert s == [s[0]] + s[1..];
    }
  }

  /** Sorting a list that is already newest-first leaves it as it is. */
  lemma {:induction false} SortSorted(s: seq<Notice>)
    requires NewestFirst(s)
    ensures SortNewestFirst(s) == s
  {
    if s != [] {
      assert NewestFirst(s[1..]) by {
        forall i, j | 0 <= i < j < |s[1..]| ensures s[1..][i].createdAt >= s[1..][j].createdAt {
          assert s[1..][i] == s[i + 1] && s[1..][j] == s[j + 1];
        }
      }
      SortSorted(s[1..]);
      assert s == [s[0]] + s[1..];
    }
  }

  /** The empty query matches every notice. */
  lemma EmptyQueryMatches(n: Notice)
    ensures Matches(n, "")
  {
    assert "" <= n.title[0..];
  }

  /** A query containing a character the text lacks does not occur in it. */
  lemma AbsentCharNotContained(s: string, q: string, j: nat)
    requires j < |q| && q[j] !in s
    ensures !Contains(s, q)
  {
  }

  /**
   * The projection keeps exactly the notices matching the query, each as
   * often as in the list, sorted newest first, stably.
   */
  lemma ProjectSpec(ns: seq<Notice>, q: string)
    ensures forall n :: n in Project(ns, q) <==> n in ns && Matches(n, q)
    ensures forall n :: multiset(Project(ns, q))[n] == if Matches(n, q) then multiset(ns)[n] else 0
    ensures NewestFirst(Project(ns, q))
    ensures forall k :: AtTime(Project(ns, q), k) == AtTime(Filter(ns, q), k)
  {
    var f := Filter(ns, q);
    KeepMultiset(ns, n => Matches(n, q));
    forall n ensures n in Project(ns, q) <==> n in f {
      assert n in Project(ns, q) <==> n in multiset(Project(ns, q));
    }
    forall k ensures AtTime(Project(ns, q), k) == AtTime(f, k) {
      SortStable(f, k);
    }
  }

  /** With an empty search box the home screen shows every notice, newest first. */
  lemma ProjectEmptyQuery(ns: seq<Notice>)
    ensures Project(ns, "") == SortNewestFirst(ns)
    ensures multiset(Project(ns, "")) == multiset(ns)
  {
    forall n | n in ns ensures Matches(n, "") {
      EmptyQueryMatches(n);
    }
    KeepAll(ns, n => Matches(n, ""));
  }

  /** Projecting the projection again with the same query changes nothing. */
  lemma ProjectIdempotent(ns: seq<Notice>, q: string)
    ensures Project(Project(ns, q), q) == Project(ns, q)
  {
    var p := Project(ns, q);
    ProjectSpec(ns, q);
    KeepAll(p, n => Matches(n, q));
    SortSorted(p);
  }
}
