/** The in-place sort the blog handlers apply to the fetched posts, newest
    first by `postDate`, and the properties that make it a stable sort. */
module DateSort {
  import opened Entities

  /** Newest first: no post is followed by a strictly newer one. */
  predicate SortedDesc(s: seq<Post>) {
    forall i, j :: 0 <= i < j < |s| ==> s[i].postDate >= s[j].postDate
  }

  /** The posts of `s` dated `d`, in the order in which they occur in `s`. */
  function WithDate(s: seq<Post>, d: int): seq<Post> {
    if s == [] then []
    else WithDate(s[..|s| - 1], d) + (if s[|s| - 1].postDate == d then [s[|s| - 1]] else [])
  }

  /** Inserts `x` behind every post of `r` dated on or after `x`, moving past
      the strictly older posts at the end of `r` one at a time. */
  function InsertLast(r: seq<Post>, x: Post): (t: seq<Post>)
    ensures |t| == |r| + 1
  {
    if r == [] || r[|r| - 1].postDate >= x.postDate then r + [x]
    else InsertLast(r[..|r| - 1], x) + [r[|r| - 1]]
  }

  lemma {:induction false} InsertLastPermutation(r: seq<Post>, x: Post)
    ensures multiset(InsertLast(r, x)) == multiset(r) + multiset{x}
  {
    if r != [] && r[|r| - 1].postDate < x.postDate {
      InsertLastPermutation(r[..|r| - 1], x);
      assert r == r[..|r| - 1] + [r[|r| - 1]];
    }
  }

  /** The result of a stable sort that compares posts by `postDate`, newest
      first: each post in turn is inserted behind the already-sorted ones. */
  function SortDesc(s: seq<Post>): (r: seq<Post>)
    ensures |r| == |s|
  {
    if s == [] then [] else InsertLast(SortDesc(s[..|s| - 1]), s[|s| - 1])
  }

  lemma {:induction false} InsertLastSorted(r: seq<Post>, x: Post)
    requires SortedDesc(r)
    ensures SortedDesc(InsertLast(r, x))
  {
    if r == [] || r[|r| - 1].postDate >= x.postDate {
    } else {
      var front, last := r[..|r| - 1], r[|r| - 1];
      InsertLastSorted(front, x);
      InsertLastPermutation(front, x);
      var t := InsertLast(front, x);
      forall e | e in t ensures e.postDate >= last.postDate {
        assert e in multiset(t);
        if e != x {
          assert e in multiset(front);
          var k :| 0 <= k < |front| && front[k] == e;
          assert r[k] == e;
        }
      }
    }
  }

  /** Inserting `x` appends it to the posts that share its date, and leaves
      the posts of every other date as they were. */
  lemma {:induction false} InsertLastWithDate(r: seq<Post>, x: Post, d: int)
    ensures WithDate(InsertLast(r, x), d) == WithDate(r, d) + (if x.postDate == d then [x] else [])
  {
    if r == [] || r[|r| - 1].postDate >= x.postDate {
      assert (r + [x])[..|r|] == r;
    } else {
      var front, last := r[..|r| - 1], r[|r| - 1];
      InsertLastWithDate(front, x, d);
      var t := InsertLast(front, x);
      assert (t + [last])[..|t|] == t;
    }
  }

  lemma {:induction false} SortDescSorted(s: seq<Post>)
    ensures SortedDesc(SortDesc(s))
  {
    if s != [] {
      SortDescSorted(s[..|s| - 1]);
      InsertLastSorted(SortDesc(s[..|s| - 1]), s[|s| - 1]);
    }
  }

  lemma {:induction false} SortDescPermutation(s: seq<Post>)
    ensures multiset(SortDesc(s)) == multiset(s)
  {
    if s != [] {
      SortDescPermutation(s[..|s| - 1]);
      InsertLastPermutation(SortDesc(s[..|s| - 1]), s[|s| - 1]);
      assert s == s[..|s| - 1] + [s[|s| - 1]];
    }
  }

  /** Stability: for every date, the posts of that date come out in the order
      in which they were fetched. */
  lemma {:induction false} SortDescStable(s: seq<Post>, d: int)
    ensures WithDate(SortDesc(s), d) == WithDate(s, d)
  {
    if s != [] {
      SortDescStable(s[..|s| - 1], d);
      InsertLastWithDate(SortDesc(s[..|s| - 1]), s[|s| - 1], d);
    }
  }

  lemma {:induction false} WithDateMembers(s: seq<Post>, d: int, e: Post)
    requires e in WithDate(s, d)
    ensures e in s && e.postDate == d
  {
    if s != [] {
      if e in WithDate(s[..|s| - 1], d) {
        WithDateMembers(s[..|s| - 1], d, e);
      }
    }
  }

  /** For every date, `r` and `t` list the posts of that date in the same order. */
  ghost predicate SameByDate(r: seq<Post>, t: seq<Post>) {
    forall d :: WithDate(r, d) == WithDate(t, d)
  }

  /** A non-empty order lists its last post under that post's date: one
      unfolding of `WithDate`, no induction. */
  lemma LastDateListed(s: seq<Post>)
    requires s != []
    ensures WithDate(s, s[|s| - 1].postDate) == WithDate(s[..|s| - 1], s[|s| - 1].postDate) + [s[|s| - 1]]
  {
  }

  /** The last post of a newest-first order is no newer than any post in it. */
  lemma {:induction false} OldestLast(s: seq<Post>, d: int)
    requires SortedDesc(s) && s != []
    requires WithDate(s, d) != []
    ensures s[|s| - 1].postDate <= d
  {
    var e := WithDate(s, d)[0];
    WithDateMembers(s, d, e);
  }

  /** Two newest-first orders that agree on every date end on the same post. */
  lemma {:induction false} SameLast(r: seq<Post>, t: seq<Post>)
    requires SortedDesc(r) && SortedDesc(t) && r != [] && t != []
    requires SameByDate(r, t)
    ensures r[|r| - 1] == t[|t| - 1]
    ensures SameByDate(r[..|r| - 1], t[..|t| - 1])
  {
    var x, y := r[|r| - 1], t[|t| - 1];
    LastDateListed(r);
    LastDateListed(t);
    assert WithDate(t, x.postDate) == WithDate(r, x.postDate);
    OldestLast(t, x.postDate);
    assert WithDate(r, y.postDate) == WithDate(t, y.postDate);
    OldestLast(r, y.postDate);
    var fr, ft := r[..|r| - 1], t[..|t| - 1];
    var wr, wt := WithDate(fr, x.postDate), WithDate(ft, x.postDate);
    assert wr + [x] == wt + [y];
    assert (wr + [x])[|wr|] == x && (wt + [y])[|wt|] == y;
    forall d ensures WithDate(fr, d) == WithDate(ft, d) {
      if d == x.postDate {
        assert wr == (wr + [x])[..|wr|];
        assert wt == (wt + [y])[..|wt|];
      } else {
        assert WithDate(r, d) == WithDate(fr, d);
        assert WithDate(t, d) == WithDate(ft, d);
      }
    }
  }

  /** Two newest-first orders that agree on the order of every date's posts
      are the same order. */
  lemma {:induction false} SortedByDateUnique(r: seq<Post>, t: seq<Post>)
    requires SortedDesc(r) && SortedDesc(t)
    requires SameByDate(r, t)
    ensures r == t
    decreases |r| + |t|
  {
    if r == [] && t == [] {
    } else if r == [] {
      LastDateListed(t);
      assert false;
    } else if t == [] {
      LastDateListed(r);
      assert false;
    } else {
      SameLast(r, t);
      var fr, ft := r[..|r| - 1], t[..|t| - 1];
      SortedByDateUnique(fr, ft);
      assert r == fr + [r[|r| - 1]] && t == ft + [t[|t| - 1]];
    }
  }

  /** Any stable newest-first sort of `s` produces exactly `SortDesc(s)`, so
      the model does not depend on which stable algorithm the runtime uses. */
  lemma StableSortUnique(s: seq<Post>, r: seq<Post>)
    requires SortedDesc(r)
    requires SameByDate(r, s)
    ensures r == SortDesc(s)
  {
    SortDescSorted(s);
    forall d ensures WithDate(r, d) == WithDate(SortDesc(s), d) {
      SortDescStable(s, d);
    }
    SortedByDateUnique(r, SortDesc(s));
  }

  lemma {:induction false} WithDateFirst(s: seq<Post>)
    requires s != []
    ensures WithDate(s, s[0].postDate) != [] && WithDate(s, s[0].postDate)[0] == s[0]
  {
    if |s| > 1 {
      WithDateFirst(s[..|s| - 1]);
    }
  }

  /** The head of the sorted list, which `/blog` features, is a newest
      fetched post, and the first one fetched among the equally new. */
  lemma FeaturedPostIsNewest(s: seq<Post>)
    requires s != []
    ensures SortDesc(s) != [] && SortDesc(s)[0] in s
    ensures forall p :: p in s ==> p.postDate <= SortDesc(s)[0].postDate
    ensures WithDate(s, SortDesc(s)[0].postDate) != []
    ensures SortDesc(s)[0] == WithDate(s, SortDesc(s)[0].postDate)[0]
  {
    var r := SortDesc(s);
    SortDescPermutation(s);
    SortDescSorted(s);
    assert |r| == |s| by {
      assert |multiset(r)| == |multiset(s)|;
    }
    assert r[0] in multiset(r);
    forall p | p in s ensures p.postDate <= r[0].postDate {
      assert p in multiset(r);
      var k :| 0 <= k < |r| && r[k] == p;
    }
    WithDateFirst(r);
    SortDescStable(s, r[0].postDate);
  }

  /** `posts.sort((a, b) => new Date(b.postDate) - new Date(a.postDate))`:
      a stable insertion sort in place, newest first. */
  method SortByDateDesc(a: array<Post>)
    modifies a
    ensures a[..] == SortDesc(old(a[..]))
  {
    ghost var s := a[..];
    var i := 0;
    while i < a.Length
      invariant 0 <= i <= a.Length
      invariant a[..i] == SortDesc(s[..i])
      invariant a[i..] == s[i..]
    {
      InsertInPlace(a, i);
      assert s[..i + 1][..i] == s[..i];
      i := i + 1;
    }
    assert a[..] == a[..a.Length] && s == s[..a.Length];
  }

  /** `x` lands behind position `j` when every post from `j` on is strictly
      older than `x` and the post before `j`, if any, is not. */
  lemma {:induction false} InsertLastAt(r: seq<Post>, x: Post, j: nat)
    requires j <= |r| && (j == 0 || r[j - 1].postDate >= x.postDate)
    requires forall k :: j <= k < |r| ==> r[k].postDate < x.postDate
    ensures InsertLast(r, x) == r[..j] + [x] + r[j..]
    decreases |r|
  {
    if j < |r| {
      var front := r[..|r| - 1];
      InsertLastAt(front, x, j);
      assert front[..j] == r[..j];
      assert front[j..] + [r[|r| - 1]] == r[j..];
    }
  }

  /** One step of the insertion sort: moves `a[i]` into the sorted prefix
      `a[..i]`, shifting the strictly older posts one place to the right. */
  method InsertInPlace(a: array<Post>, i: nat)
    requires i < a.Length
    modifies a
    ensures a[..i + 1] == InsertLast(old(a[..i]), old(a[i]))
    ensures a[i + 1..] == old(a[i + 1..])
  {
    ghost var orig := a[..];
    ghost var sorted := a[..i];
    var x := a[i];
    var j := i;
    while j > 0 && a[j - 1].postDate < x.postDate
      invariant 0 <= j <= i
      invariant forall k :: 0 <= k < j ==> a[k] == sorted[k]
      invariant forall k :: j < k <= i ==> a[k] == sorted[k - 1]
      invariant forall k :: i < k < a.Length ==> a[k] == orig[k]
      invariant forall k :: j <= k < i ==> sorted[k].postDate < x.postDate
    {
      a[j] := a[j - 1];
      j := j - 1;
    }
    a[j] := x;
    InsertLastAt(sorted, x, j);
    assert a[..i + 1] == sorted[..j] + [x] + sorted[j..];
    assert a[i + 1..] == orig[i + 1..];
  }
}
