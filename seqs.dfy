/** Sequence operations used by the game loop: filtering by a mask (what
    removing the off-screen pipes from a snapshot leaves) and Python's
    list.remove. */
module Seqs {

  /** The elements of s whose flag in keep is set, in their original order. */
  function Select<T>(s: seq<T>, keep: seq<bool>): (r: seq<T>)
    requires |keep| == |s|
    ensures |r| <= |s|
  {
    if s == [] then []
    else Select(s[..|s| - 1], keep[..|s| - 1]) + (if keep[|s| - 1] then [s[|s| - 1]] else [])
  }

  /** The positions whose flag in keep is set, in increasing order. */
  function Kept(keep: seq<bool>): seq<int>
  {
    if keep == [] then []
    else Kept(keep[..|keep| - 1]) + (if keep[|keep| - 1] then [|keep| - 1] else [])
  }

  /** r is s with some elements dropped, the rest in their original order;
      idx says where each element of r sits in s. */
  ghost predicate Embeds<T>(r: seq<T>, s: seq<T>, idx: seq<int>)
  {
    |idx| == |r| &&
    (forall j :: 0 <= j < |idx| ==> 0 <= idx[j] < |s| && r[j] == s[idx[j]]) &&
    (forall j1, j2 :: 0 <= j1 < j2 < |idx| ==> idx[j1] < idx[j2])
  }

  ghost predicate IsSubsequence<T>(r: seq<T>, s: seq<T>)
  {
    exists idx :: Embeds(r, s, idx)
  }

  ghost predicate Distinct<T>(s: seq<T>)
  {
    forall i, j :: 0 <= i < j < |s| ==> s[i] != s[j]
  }

  /** Select keeps exactly the flagged positions, in order: its k-th element is
      s at the k-th flagged position, and every flagged position appears. */
  lemma {:induction false} SelectSpec<T>(s: seq<T>, keep: seq<bool>)
    requires |keep| == |s|
    ensures Embeds(Select(s, keep), s, Kept(keep))
    ensures forall j :: 0 <= j < |Kept(keep)| ==> keep[Kept(keep)[j]]
    ensures forall k :: 0 <= k < |s| && keep[k] ==> k in Kept(keep)
  {
    if s != [] {
      var n := |s| - 1;
      SelectSpec(s[..n], keep[..n]);
      var idx0 := Kept(keep[..n]);
      assert forall j :: 0 <= j < |idx0| ==> idx0[j] < n;
      var idx := Kept(keep);
      assert idx == idx0 + (if keep[n] then [n] else []);
      forall j | 0 <= j < |idx|
        ensures keep[idx[j]]
      {
        if j < |idx0| {
          assert keep[..n][idx0[j]] == keep[idx0[j]];
        }
      }
      forall k | 0 <= k < |s| && keep[k]
        ensures k in idx
      {
        if k < n {
          assert keep[..n][k];
          assert k in idx0;
        }
      }
    }
  }

  /** Filtering by a mask preserves relative order. */
  lemma SelectIsSubsequence<T>(s: seq<T>, keep: seq<bool>)
    requires |keep| == |s|
    ensures IsSubsequence(Select(s, keep), s)
  {
    SelectSpec(s, keep);
  }

  /** An element survives the filter exactly when some flagged position holds it. */
  lemma SelectMembership<T>(s: seq<T>, keep: seq<bool>, x: T)
    requires |keep| == |s|
    ensures x in Select(s, keep) <==> exists k :: 0 <= k < |s| && keep[k] && s[k] == x
  {
    SelectSpec(s, keep);
    var r, idx := Select(s, keep), Kept(keep);
    if x in r {
      var j :| 0 <= j < |r| && r[j] == x;
      assert keep[idx[j]] && s[idx[j]] == x;
    }
    if exists k :: 0 <= k < |s| && keep[k] && s[k] == x {
      var k :| 0 <= k < |s| && keep[k] && s[k] == x;
      var j :| 0 <= j < |idx| && idx[j] == k;
      assert r[j] == x;
    }
  }

  /** Filtering with every flag set keeps everything. */
  lemma {:induction false} SelectAll<T>(s: seq<T>, keep: seq<bool>)
    requires |keep| == |s|
    requires forall k :: 0 <= k < |keep| ==> keep[k]
    ensures Select(s, keep) == s
  {
    if s != [] {
      var n := |s| - 1;
      SelectAll(s[..n], keep[..n]);
      assert s[..n] + [s[n]] == s;
    }
  }

  /** Filtering a sequence without duplicates leaves one without duplicates. */
  lemma SelectDistinct<T>(s: seq<T>, keep: seq<bool>)
    requires |keep| == |s|
    requires Distinct(s)
    ensures Distinct(Select(s, keep))
  {
    SelectSpec(s, keep);
  }

  /** Every element of the filtered sequence but its last comes from s
      without its last element, so an element appended to s can only end up
      last. */
  lemma SelectButLast<T>(s: seq<T>, keep: seq<bool>)
    requires |keep| == |s|
    ensures forall k :: 0 <= k < |Select(s, keep)| - 1 ==> Select(s, keep)[k] in s[..|s| - 1]
  {
    if s != [] {
      var n := |s| - 1;
      var init := Select(s[..n], keep[..n]);
      forall k | 0 <= k < |Select(s, keep)| - 1
        ensures Select(s, keep)[k] in s[..n]
      {
        assert Select(s, keep)[k] == init[k];
        SelectMembership(s[..n], keep[..n], init[k]);
      }
    }
  }

  /** Python's list.remove: drop the first element equal to x. Python raises
      ValueError when x is absent, so x must occur. */
  function RemoveFirst<T(==)>(s: seq<T>, x: T): (r: seq<T>)
    requires x in s
    ensures |r| == |s| - 1
  {
    if s[0] == x then s[1..]
    else [s[0]] + RemoveFirst(s[1..], x)
  }

  /** Removing the element at a kept position from the filtered sequence is the
      same as clearing that position's flag, when s has no duplicates. */
  lemma {:induction false} SelectRemove<T>(s: seq<T>, keep: seq<bool>, i: int)
    requires |keep| == |s| && 0 <= i < |s| && keep[i]
    requires Distinct(s)
    ensures s[i] in Select(s, keep)
    ensures RemoveFirst(Select(s, keep), s[i]) == Select(s, keep[i := false])
  {
    SelectMembership(s, keep, s[i]);
    var n := |s| - 1;
    var cleared := keep[i := false];
    var init := Select(s[..n], keep[..n]);
    if i == n {
      assert cleared[..n] == keep[..n];
      assert Select(s, keep) == init + [s[n]];
      assert Select(s, cleared) == init + [];
      SelectMembership(s[..n], keep[..n], s[n]);
      assert s[n] !in init;
      RemoveFirstAt(init, s[n], []);
      assert init + [s[n]] + [] == init + [s[n]];
    } else {
      assert cleared[..n] == keep[..n][i := false];
      var last := if keep[n] then [s[n]] else [];
      assert Select(s, keep) == init + last;
      assert Select(s, cleared) == Select(s[..n], cleared[..n]) + last;
      SelectRemove(s[..n], keep[..n], i);
      SelectMembership(s[..n], keep[..n], s[i]);
      RemoveFirstAppend(init, s[i], last);
    }
  }

  /** Removing an element that does not occur earlier takes out exactly that
      occurrence and keeps the rest in order. */
  lemma {:induction false} RemoveFirstAt<T>(a: seq<T>, x: T, b: seq<T>)
    requires x !in a
    ensures RemoveFirst(a + [x] + b, x) == a + b
  {
    if a != [] {
      assert (a + [x] + b)[1..] == a[1..] + [x] + b;
      RemoveFirstAt(a[1..], x, b);
    }
  }

  /** Removing an element that occurs in a prefix leaves the suffix alone. */
  lemma {:induction false} RemoveFirstAppend<T>(a: seq<T>, x: T, t: seq<T>)
    requires x in a
    ensures RemoveFirst(a + t, x) == RemoveFirst(a, x) + t
  {
    assert (a + t)[0] == a[0];
    if a[0] != x {
      assert (a + t)[1..] == a[1..] + t;
      RemoveFirstAppend(a[1..], x, t);
    }
  }
}
