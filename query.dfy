/**
 * `Model.find(filter).sort("-createdAt")` over a collection stored as a map from
 * ids to records: the records that pass the filter, newest first.
 * The collection is scanned in ascending id order below a bound `n` on the ids
 * (the stores of this model hand out ids below their clock).
 */
module Query {

  /** Creation times never increase along `s`. */
  predicate NewestFirst<T>(s: seq<T>, at: T -> nat) {
    forall i, j :: 0 <= i < j < |s| ==> at(s[j]) <= at(s[i])
  }

  /** Inserts `x` into the newest-first list `s` in front of every record not newer than it. */
  function InsertByAge<T>(x: T, s: seq<T>, at: T -> nat): (r: seq<T>)
    requires NewestFirst(s, at)
    ensures NewestFirst(r, at)
    ensures multiset(r) == multiset(s) + multiset{x}
    ensures |r| == |s| + 1 && (r[0] == x || (s != [] && r[0] == s[0]))
  {
    if s == [] || at(s[0]) <= at(x) then
      [x] + s
    else
      var rest := InsertByAge(x, s[1..], at);
      assert s == [s[0]] + s[1..];
      assert at(rest[0]) <= at(s[0]);
      [s[0]] + rest
  }

  /** The records of `s` reordered newest first. */
  function SortNewestFirst<T>(s: seq<T>, at: T -> nat): (r: seq<T>)
    ensures NewestFirst(r, at)
    ensures multiset(r) == multiset(s)
  {
    if s == [] then []
    else
      assert s == [s[0]] + s[1..];
      InsertByAge(s[0], SortNewestFirst(s[1..], at), at)
  }

  /** The ids below `n` of the records of `m` that satisfy `p`, in ascending order. */
  function MatchingIds<T>(m: map<nat, T>, n: nat, p: T -> bool): (ids: seq<nat>)
    ensures forall i :: 0 <= i < |ids| ==> ids[i] in m && ids[i] < n && p(m[ids[i]])
    ensures forall k :: k in m && k < n && p(m[k]) ==> k in ids
    ensures forall i, j :: 0 <= i < j < |ids| ==> ids[i] < ids[j]
  {
    if n == 0 then []
    else if n - 1 in m && p(m[n - 1]) then MatchingIds(m, n - 1, p) + [n - 1]
    else MatchingIds(m, n - 1, p)
  }

  /** The set of ids that `MatchingIds` lists. */
  ghost function Matching<T>(m: map<nat, T>, n: nat, p: T -> bool): set<nat> {
    set k | k in m && k < n && p(m[k])
  }

  /** The ids a list mentions. */
  ghost function Elements(ids: seq<nat>): set<nat> {
    set k | k in ids
  }

  /** A strictly increasing list of ids has as many entries as the set it enumerates. */
  lemma {:induction false} IncreasingCount(ids: seq<nat>)
    requires forall i, j :: 0 <= i < j < |ids| ==> ids[i] < ids[j]
    ensures |ids| == |Elements(ids)|
  {
    if ids != [] {
      var front, last := ids[..|ids| - 1], ids[|ids| - 1];
      IncreasingCount(front);
      assert last !in Elements(front) by {
        forall i | 0 <= i < |front| ensures front[i] != last {
          assert ids[i] < ids[|ids| - 1];
        }
      }
      assert Elements(ids) == Elements(front) + {last} by {
        assert ids == front + [last];
      }
    }
  }

  /** The records at `ids`, in that order. */
  function Records<T>(m: map<nat, T>, ids: seq<nat>): (r: seq<T>)
    requires forall i :: 0 <= i < |ids| ==> ids[i] in m
    ensures |r| == |ids| && forall i :: 0 <= i < |r| ==> r[i] == m[ids[i]]
  {
    seq(|ids|, i requires 0 <= i < |ids| => m[ids[i]])
  }

  /** Every record of a permutation of `Records(m, ids)` is stored under one of the ids. */
  lemma PermutedRecordsAreStored<T>(m: map<nat, T>, ids: seq<nat>, r: seq<T>)
    requires forall i :: 0 <= i < |ids| ==> ids[i] in m
    requires multiset(r) == multiset(Records(m, ids))
    ensures forall i :: 0 <= i < |r| ==> exists j :: 0 <= j < |ids| && m[ids[j]] == r[i]
  {
    var found := Records(m, ids);
    forall i | 0 <= i < |r|
      ensures exists j :: 0 <= j < |ids| && m[ids[j]] == r[i]
    {
      assert r[i] in multiset(r);
      assert r[i] in found;
      var j :| 0 <= j < |found| && found[j] == r[i];
    }
  }

  /** Every record under one of the ids is in a permutation of `Records(m, ids)`. */
  lemma StoredRecordsArePermuted<T>(m: map<nat, T>, ids: seq<nat>, r: seq<T>)
    requires forall i :: 0 <= i < |ids| ==> ids[i] in m
    requires multiset(r) == multiset(Records(m, ids))
    ensures forall j :: 0 <= j < |ids| ==> m[ids[j]] in r
  {
    var found := Records(m, ids);
    forall j | 0 <= j < |ids|
      ensures m[ids[j]] in r
    {
      assert found[j] in multiset(found);
    }
  }

  /**
   * `find(p).sort("-createdAt")`: exactly the records under ids below `n` that pass `p`,
   * as many as there are such ids, newest first.
   */
  function Find<T>(m: map<nat, T>, n: nat, p: T -> bool, at: T -> nat): (r: seq<T>)
    ensures NewestFirst(r, at)
    ensures forall i :: 0 <= i < |r| ==> exists k :: k in m && k < n && p(m[k]) && m[k] == r[i]
    ensures forall k :: k in m && k < n && p(m[k]) ==> m[k] in r
    ensures |r| == |Matching(m, n, p)|
  {
    var ids := MatchingIds(m, n, p);
    var r := SortNewestFirst(Records(m, ids), at);
    PermutedRecordsAreStored(m, ids, r);
    StoredRecordsArePermuted(m, ids, r);
    IncreasingCount(ids);
    assert Elements(ids) == Matching(m, n, p);
    assert |r| == |multiset(r)| == |multiset(Records(m, ids))| == |ids|;
    r
  }
}
