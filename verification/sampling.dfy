/** A pure account of selectRandomEntries: the batch it draws, the records
    that stay behind, and the state it leaves the caller's backing array in.

    The random draws are parameters. `sizeDraw` is the value of
    `rand.Intn(6)`, and `picks[i]` is the value of the i-th
    `rand.Intn(len(entries))`, taken while the local slice has shrunk by i. */
module Sampling {
  import opened Prelude

  /** The requested batch size `rand.Intn(6) + 5`. */
  function BatchSize(sizeDraw: nat): (n: nat)
    requires sizeDraw < 6
    ensures 5 <= n <= 10
  {
    sizeDraw + 5
  }

  /** Every size in [5, 10] comes from exactly one draw of `rand.Intn(6)`. */
  lemma BatchSizeOnto(n: nat)
    requires 5 <= n <= 10
    ensures n - 5 < 6 && BatchSize(n - 5) == n
    ensures forall d: nat | d < 6 && BatchSize(d) == n :: d == n - 5
  {
  }

  /** What `rand.Intn` promises about the index draws: while the loop runs
      (fewer than n entries taken and the local slice not empty), the next
      draw lies below the slice's current length, which shrinks by one per
      step. */
  predicate ValidPicks(len: nat, n: nat, picks: seq<nat>)
    decreases n
  {
    n == 0 || len == 0 || (|picks| > 0 && picks[0] < len && ValidPicks(len - 1, n - 1, picks[1..]))
  }

  /** Valid draws for n iterations are valid for any fewer. */
  lemma {:induction false} ValidPicksShorter(len: nat, n: nat, picks: seq<nat>, m: nat)
    requires ValidPicks(len, n, picks) && m <= n
    ensures ValidPicks(len, m, picks)
    decreases m
  {
    if m > 0 && len > 0 {
      ValidPicksShorter(len - 1, n - 1, picks[1..], m - 1);
    }
  }

  /** The i-th draw (counting from 0) of a loop that runs at least i + 1
      times lies below the length the slice has by then. */
  lemma {:induction false} ValidPicksAt(len: nat, n: nat, picks: seq<nat>, i: nat)
    requires ValidPicks(len, n, picks) && i < n && i < len
    ensures i < |picks| && picks[i] < len - i
    decreases i
  {
    if i > 0 {
      ValidPicksAt(len - 1, n - 1, picks[1..], i - 1);
      assert picks[1..][i - 1] == picks[i];
    }
  }

  /** The slice `s` with position i removed, the rest kept in order. */
  function RemoveAt<T>(s: seq<T>, i: nat): (r: seq<T>)
    requires i < |s|
    ensures |r| == |s| - 1
  {
    s[..i] + s[i + 1..]
  }

  /** Positions before i keep their entry; later ones move down by one. */
  lemma RemoveAtShifts<T>(s: seq<T>, i: nat)
    requires i < |s|
    ensures forall j :: 0 <= j < i ==> RemoveAt(s, i)[j] == s[j]
    ensures forall j :: i <= j < |s| - 1 ==> RemoveAt(s, i)[j] == s[j + 1]
  {
  }

  /** Removing position i takes exactly one copy of s[i] out of the slice. */
  lemma RemoveAtMultiset<T>(s: seq<T>, i: nat)
    requires i < |s|
    ensures multiset(RemoveAt(s, i)) + multiset{s[i]} == multiset(s)
  {
    assert s == s[..i] + [s[i]] + s[i + 1..];
  }

  /** The result of one call: the batch drawn and the records left behind. */
  datatype Split<T> = Split(batch: seq<T>, rest: seq<T>)

  /** Drawing a batch of up to n entries without replacement: each step takes
      the entry at the drawn index and removes it from the pool. */
  function Draw<T>(entries: seq<T>, n: nat, picks: seq<nat>): (r: Split<T>)
    requires ValidPicks(|entries|, n, picks)
    ensures |r.batch| == Min(n, |entries|)
    ensures |r.rest| == |entries| - |r.batch|
    decreases n
  {
    if n == 0 || |entries| == 0 then
      Split([], entries)
    else
      var idx := picks[0];
      var tail := Draw(RemoveAt(entries, idx), n - 1, picks[1..]);
      Split([entries[idx]] + tail.batch, tail.rest)
  }

  /** The batch and the rest together hold exactly the entries: nothing is
      lost or duplicated. */
  ghost predicate Permutes<T>(r: Split<T>, entries: seq<T>)
  {
    multiset(r.batch) + multiset(r.rest) == multiset(entries)
  }

  lemma PermutesStep<T>(entries: seq<T>, idx: nat, tail: Split<T>, r: Split<T>)
    requires idx < |entries|
    requires Permutes(tail, RemoveAt(entries, idx))
    requires r == Split([entries[idx]] + tail.batch, tail.rest)
    ensures Permutes(r, entries)
  {
    RemoveAtMultiset(entries, idx);
    assert multiset([entries[idx]] + tail.batch) == multiset{entries[idx]} + multiset(tail.batch);
  }

  /** The batch and the rest together are a permutation of the entries: no
      record is lost or duplicated by the draw. */
  lemma {:induction false} DrawPermutes<T>(entries: seq<T>, n: nat, picks: seq<nat>)
    requires ValidPicks(|entries|, n, picks)
    ensures Permutes(Draw(entries, n, picks), entries)
    decreases n
  {
    if n == 0 || |entries| == 0 {
      assert Draw(entries, n, picks) == Split([], entries);
    } else {
      DrawStep(entries, n, picks);
      var idx := picks[0];
      DrawPermutes(RemoveAt(entries, idx), n - 1, picks[1..]);
      PermutesStep(entries, idx, Draw(RemoveAt(entries, idx), n - 1, picks[1..]), Draw(entries, n, picks));
    }
  }

  /** Every value drawn or left behind was among the entries. */
  lemma DrawMembers<T>(entries: seq<T>, n: nat, picks: seq<nat>)
    requires ValidPicks(|entries|, n, picks)
    ensures forall x :: x in Draw(entries, n, picks).batch ==> x in entries
    ensures forall x :: x in Draw(entries, n, picks).rest ==> x in entries
  {
    var r := Draw(entries, n, picks);
    DrawPermutes(entries, n, picks);
    assert multiset(r.batch) + multiset(r.rest) == multiset(entries);
    forall x | x in r.batch ensures x in entries {
      assert multiset(r.batch)[x] > 0;
      assert multiset(entries)[x] > 0;
    }
    forall x | x in r.rest ensures x in entries {
      assert multiset(r.rest)[x] > 0;
      assert multiset(entries)[x] > 0;
    }
  }

  /** The loop's (i+1)-th iteration, seen from the front: it takes the
      entry at the i-th draw from what the first i iterations left, and
      removes it from there. */
  lemma {:induction false} DrawSnoc<T>(entries: seq<T>, i: nat, picks: seq<nat>)
    requires ValidPicks(|entries|, i + 1, picks) && i < |entries|
    ensures ValidPicks(|entries|, i, picks)
    ensures i < |picks| && picks[i] < |entries| - i
    ensures Draw(entries, i + 1, picks).batch
         == Draw(entries, i, picks).batch + [Draw(entries, i, picks).rest[picks[i]]]
    ensures Draw(entries, i + 1, picks).rest == RemoveAt(Draw(entries, i, picks).rest, picks[i])
    decreases i
  {
    ValidPicksShorter(|entries|, i + 1, picks, i);
    ValidPicksAt(|entries|, i + 1, picks, i);
    var idx := picks[0];
    var smaller := RemoveAt(entries, idx);
    if i > 0 {
      DrawSnoc(smaller, i - 1, picks[1..]);
      assert picks[1..][i - 1] == picks[i];
      var pre := Draw(smaller, i - 1, picks[1..]);
      assert Draw(entries, i, picks) == Split([entries[idx]] + pre.batch, pre.rest);
      assert ([entries[idx]] + pre.batch) + [pre.rest[picks[i]]]
          == [entries[idx]] + (pre.batch + [pre.rest[picks[i]]]);
    }
  }

  /** Once the slice is empty the loop stops: asking for more entries than
      there are draws exactly as many as there are. */
  lemma {:induction false} DrawSaturates<T>(entries: seq<T>, n: nat, picks: seq<nat>)
    requires ValidPicks(|entries|, n, picks) && n >= |entries|
    ensures ValidPicks(|entries|, |entries|, picks)
    ensures Draw(entries, n, picks) == Draw(entries, |entries|, picks)
    decreases |entries|
  {
    ValidPicksShorter(|entries|, n, picks, |entries|);
    if |entries| > 0 {
      DrawSaturates(RemoveAt(entries, picks[0]), n - 1, picks[1..]);
    }
  }

  /** A dataset of at most five records is handed over whole: whatever size
      was drawn, the batch is a permutation of all of it. */
  lemma SmallDatasetTakesAll<T>(entries: seq<T>, sizeDraw: nat, picks: seq<nat>)
    requires sizeDraw < 6 && |entries| <= 5
    requires ValidPicks(|entries|, BatchSize(sizeDraw), picks)
    ensures multiset(Draw(entries, BatchSize(sizeDraw), picks).batch) == multiset(entries)
    ensures Draw(entries, BatchSize(sizeDraw), picks).rest == []
  {
    DrawPermutes(entries, BatchSize(sizeDraw), picks);
    assert Draw(entries, BatchSize(sizeDraw), picks).rest == [];
  }

  // ---------------------------------------------------------------------
  // Positions: which original indices the batch and the rest come from.

  predicate Below(ix: seq<nat>, bound: nat)
  {
    forall k :: 0 <= k < |ix| ==> ix[k] < bound
  }

  ghost predicate Distinct<T>(s: seq<T>)
  {
    forall i, j :: 0 <= i < j < |s| ==> s[i] != s[j]
  }

  predicate Increasing(s: seq<nat>)
  {
    forall i, j :: 0 <= i < j < |s| ==> s[i] < s[j]
  }

  /** The positions 0..len-1. */
  function Iota(len: nat): seq<nat>
  {
    seq(len, i => i)
  }

  /** The entries at the given positions. */
  function Gather<T>(entries: seq<T>, ix: seq<nat>): seq<T>
    requires Below(ix, |entries|)
  {
    seq(|ix|, k requires 0 <= k < |ix| => entries[ix[k]])
  }

  lemma GatherRemoveAt<T>(entries: seq<T>, ix: seq<nat>, i: nat)
    requires Below(ix, |entries|) && i < |ix|
    ensures Below(RemoveAt(ix, i), |entries|)
    ensures Gather(entries, RemoveAt(ix, i)) == RemoveAt(Gather(entries, ix), i)
  {
  }

  lemma BelowSubset(ix: seq<nat>, sub: seq<nat>, bound: nat)
    requires Below(ix, bound)
    requires forall x :: x in sub ==> x in ix
    ensures Below(sub, bound)
  {
    forall k | 0 <= k < |sub| ensures sub[k] < bound {
      assert sub[k] in ix;
    }
  }

  lemma DrawBelow(ix: seq<nat>, n: nat, picks: seq<nat>, bound: nat)
    requires ValidPicks(|ix|, n, picks)
    requires Below(ix, bound)
    ensures Below(Draw(ix, n, picks).batch, bound)
    ensures Below(Draw(ix, n, picks).rest, bound)
  {
    DrawMembers(ix, n, picks);
    BelowSubset(ix, Draw(ix, n, picks).batch, bound);
    BelowSubset(ix, Draw(ix, n, picks).rest, bound);
  }

  lemma GatherAll<T>(entries: seq<T>)
    ensures Below(Iota(|entries|), |entries|)
    ensures Gather(entries, Iota(|entries|)) == entries
  {
  }

  /** One step of Draw: the entry at the first drawn index, then a draw
      from the remaining ones. */
  lemma DrawStep<T>(entries: seq<T>, n: nat, picks: seq<nat>)
    requires ValidPicks(|entries|, n, picks)
    requires n > 0 && |entries| > 0
    ensures picks[0] < |entries|
    ensures Draw(entries, n, picks)
         == Split([entries[picks[0]]] + Draw(RemoveAt(entries, picks[0]), n - 1, picks[1..]).batch,
                  Draw(RemoveAt(entries, picks[0]), n - 1, picks[1..]).rest)
  {
  }

  lemma GatherPrepend<T>(entries: seq<T>, i: nat, ix: seq<nat>)
    requires i < |entries| && Below(ix, |entries|)
    ensures Below([i] + ix, |entries|)
    ensures Gather(entries, [i] + ix) == [entries[i]] + Gather(entries, ix)
  {
  }

  /** Drawing from the entries at positions ix is drawing positions from ix
      and looking them up afterwards. */
  lemma {:induction false} DrawGather<T>(entries: seq<T>, ix: seq<nat>, n: nat, picks: seq<nat>)
    requires Below(ix, |entries|)
    requires ValidPicks(|ix|, n, picks)
    ensures Below(Draw(ix, n, picks).batch, |entries|)
    ensures Below(Draw(ix, n, picks).rest, |entries|)
    ensures Draw(Gather(entries, ix), n, picks)
         == Split(Gather(entries, Draw(ix, n, picks).batch), Gather(entries, Draw(ix, n, picks).rest))
    decreases n
  {
    DrawBelow(ix, n, picks, |entries|);
    var g := Gather(entries, ix);
    assert |g| == |ix|;
    if n == 0 || |ix| == 0 {
    } else {
      DrawStep(ix, n, picks);
      DrawStep(g, n, picks);
      var idx := picks[0];
      var smaller := RemoveAt(ix, idx);
      GatherRemoveAt(entries, ix, idx);
      DrawGather(entries, smaller, n - 1, picks[1..]);
      var tail := Draw(smaller, n - 1, picks[1..]);
      assert g[idx] == entries[ix[idx]];
      GatherPrepend(entries, ix[idx], tail.batch);
    }
  }

  lemma RemoveAtDistinct<T>(s: seq<T>, i: nat)
    requires i < |s| && Distinct(s)
    ensures Distinct(RemoveAt(s, i))
    ensures s[i] !in RemoveAt(s, i)
  {
    var r := RemoveAt(s, i);
    forall a, b | 0 <= a < b < |r|
      ensures r[a] != r[b]
    {
      var a' := if a < i then a else a + 1;
      var b' := if b < i then b else b + 1;
      assert r[a] == s[a'] && r[b] == s[b'];
    }
    forall a | 0 <= a < |r|
      ensures r[a] != s[i]
    {
      var a' := if a < i then a else a + 1;
      assert r[a] == s[a'];
    }
  }

  /** Drawing from distinct values yields distinct values, none of them both
      in the batch and in the rest. */
  lemma PrependDistinct<T>(x: T, s: seq<T>)
    requires Distinct(s) && x !in s
    ensures Distinct([x] + s)
  {
    var all := [x] + s;
    forall a, b | 0 <= a < b < |all| ensures all[a] != all[b] {
      assert all[b] == s[b - 1];
      if a > 0 {
        assert all[a] == s[a - 1];
      }
    }
  }

  /** Drawing from distinct values yields distinct values, none of them both
      in the batch and in the rest. */
  lemma {:induction false} DrawDistinct<T>(entries: seq<T>, n: nat, picks: seq<nat>)
    requires ValidPicks(|entries|, n, picks)
    requires Distinct(entries)
    ensures Distinct(Draw(entries, n, picks).batch + Draw(entries, n, picks).rest)
    decreases n
  {
    if n == 0 || |entries| == 0 {
      assert Draw(entries, n, picks).batch + Draw(entries, n, picks).rest == entries;
    } else {
      DrawStep(entries, n, picks);
      var idx := picks[0];
      var smaller := RemoveAt(entries, idx);
      RemoveAtDistinct(entries, idx);
      DrawDistinct(smaller, n - 1, picks[1..]);
      var tail := Draw(smaller, n - 1, picks[1..]);
      var both := tail.batch + tail.rest;
      assert entries[idx] !in both by {
        DrawMembers(smaller, n - 1, picks[1..]);
      }
      PrependDistinct(entries[idx], both);
      assert Draw(entries, n, picks).batch + Draw(entries, n, picks).rest == [entries[idx]] + both;
    }
  }

  lemma RemoveAtIncreasing(s: seq<nat>, i: nat)
    requires i < |s| && Increasing(s)
    ensures Increasing(RemoveAt(s, i))
  {
    var r := RemoveAt(s, i);
    forall a, b | 0 <= a < b < |r|
      ensures r[a] < r[b]
    {
      var a' := if a < i then a else a + 1;
      var b' := if b < i then b else b + 1;
      assert r[a] == s[a'] && r[b] == s[b'];
    }
  }

  /** Removing elements from an increasing sequence keeps it increasing. */
  lemma {:induction false} DrawKeepsOrder(ix: seq<nat>, n: nat, picks: seq<nat>)
    requires ValidPicks(|ix|, n, picks)
    requires Increasing(ix)
    ensures Increasing(Draw(ix, n, picks).rest)
    decreases n
  {
    if n == 0 || |ix| == 0 {
    } else {
      RemoveAtIncreasing(ix, picks[0]);
      DrawKeepsOrder(RemoveAt(ix, picks[0]), n - 1, picks[1..]);
    }
  }

  /** Sampling without replacement. With `chosen` and `kept` the positions
      that the same draws pick from 0..L-1: the batch is the entries at the
      chosen positions, the rest the entries at the kept positions; together
      the positions name every index below L exactly once, and the kept ones
      are in ascending (original) order. */
  lemma WithoutReplacement<T>(entries: seq<T>, n: nat, picks: seq<nat>)
    requires ValidPicks(|entries|, n, picks)
    ensures Below(Draw(Iota(|entries|), n, picks).batch, |entries|)
    ensures Below(Draw(Iota(|entries|), n, picks).rest, |entries|)
    ensures Draw(entries, n, picks).batch == Gather(entries, Draw(Iota(|entries|), n, picks).batch)
    ensures Draw(entries, n, picks).rest == Gather(entries, Draw(Iota(|entries|), n, picks).rest)
    ensures Distinct(Draw(Iota(|entries|), n, picks).batch + Draw(Iota(|entries|), n, picks).rest)
    ensures |Draw(Iota(|entries|), n, picks).batch + Draw(Iota(|entries|), n, picks).rest| == |entries|
    ensures Increasing(Draw(Iota(|entries|), n, picks).rest)
  {
    var ix := Iota(|entries|);
    GatherAll(entries);
    DrawGather(entries, ix, n, picks);
    DrawDistinct(ix, n, picks);
    DrawKeepsOrder(ix, n, picks);
  }
}
