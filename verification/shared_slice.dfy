/** selectRandomEntries as the Go code runs it: a slice header (the
    caller's backing array `a` and a local length `len`) that shrinks by one
    in-place deletion per drawn entry. */
module SharedSlice {
  import opened Prelude
  import opened Sampling
  import opened Backing

  /** `entries = append(entries[:idx], entries[idx+1:]...)` with the
      capacity to spare: cells idx+1..len-1 move one place left, in place,
      and nothing else in the array changes. */
  method DeleteInPlace<T>(a: array<T>, len: nat, idx: nat)
    requires idx < len <= a.Length
    modifies a
    ensures a[..] == ShiftDelete(old(a[..]), len, idx)
  {
    var j := idx;
    while j < len - 1
      invariant idx <= j <= len - 1
      invariant forall k :: 0 <= k < a.Length ==>
        a[k] == (if idx <= k < j then old(a[k + 1]) else old(a[k]))
    {
      a[j] := a[j + 1];
      j := j + 1;
    }
  }

  /** Iteration i + 1 of the loop, on the array the first i iterations
      left: it appends the entry at the i-th draw to the batch and deletes
      it in place, which is one more step of Draw and of Stranded. */
  method DrawOneInPlace<T>(a: array<T>, ghost start: seq<T>, i: nat, picks: seq<nat>, batch: seq<T>)
    returns (batch': seq<T>)
    requires |start| == a.Length && i < a.Length
    requires ValidPicks(a.Length, i + 1, picks) && ValidPicks(a.Length, i, picks)
    requires batch == Draw(start, i, picks).batch
    requires a[..] == CallerAfter(start, i, picks)
    modifies a
    ensures batch' == Draw(start, i + 1, picks).batch
    ensures a[..] == CallerAfter(start, i + 1, picks)
  {
    DrawSnoc(start, i, picks);
    StrandedSnoc(start, i, picks);
    ghost var rest := Draw(start, i, picks).rest;
    ghost var stranded := Stranded(start, i, picks);
    var len := a.Length - i;
    var idx := picks[i];
    assert a[..] == rest + stranded && |rest| == len;
    assert a[idx] == rest[idx];
    batch' := batch + [a[idx]];
    DeleteInPlace(a, len, idx);
    ShiftDeleteLayout(rest, stranded, idx);
    assert a[..] == RemoveAt(rest, idx) + ([rest[len - 1]] + stranded);
  }

  /** The loop of selectRandomEntries on the caller's array `a`, with
      a.Length - i for the local slice's length: it draws what the pure Draw
      draws and leaves the array as CallerAfter describes. */
  method DrawInPlace<T>(a: array<T>, n: nat, picks: seq<nat>) returns (batch: seq<T>)
    requires ValidPicks(a.Length, n, picks)
    modifies a
    ensures batch == Draw(old(a[..]), n, picks).batch
    ensures a[..] == CallerAfter(old(a[..]), n, picks)
  {
    ghost var start := a[..];
    batch := [];
    LoopEntry(start, picks);
    var i: nat := 0;
    while i < n && i < a.Length
      invariant |start| == a.Length && i <= n && i <= a.Length
      invariant ValidPicks(a.Length, i, picks)
      invariant batch == Draw(start, i, picks).batch
      invariant a[..] == CallerAfter(start, i, picks)
    {
      ValidPicksShorter(a.Length, n, picks, i + 1);
      batch := DrawOneInPlace(a, start, i, picks, batch);
      i := i + 1;
    }
    LoopExit(start, n, i, picks);
  }

  /** Before the first iteration nothing is drawn and the array is as the
      caller passed it. */
  lemma LoopEntry<T>(start: seq<T>, picks: seq<nat>)
    ensures ValidPicks(|start|, 0, picks)
    ensures Draw(start, 0, picks).batch == []
    ensures CallerAfter(start, 0, picks) == start
  {
    assert Draw(start, 0, picks) == Split([], start);
    assert Stranded(start, 0, picks) == [];
  }

  /** The loop stops after n iterations or once the slice is empty; either
      way it has done all the work of n. */
  lemma LoopExit<T>(start: seq<T>, n: nat, i: nat, picks: seq<nat>)
    requires ValidPicks(|start|, n, picks) && ValidPicks(|start|, i, picks)
    requires i <= n && i <= |start| && (i == n || i == |start|)
    ensures Draw(start, n, picks) == Draw(start, i, picks)
    ensures CallerAfter(start, n, picks) == CallerAfter(start, i, picks)
  {
    if i < n {
      DrawSaturates(start, n, picks);
      StrandedSaturates(start, n, picks);
    }
  }

  /** selectRandomEntries on the caller's array `a`. It returns the batch the
      draws pick, and it leaves the caller's array with the unchosen records
      packed, in order, in front of the stranded values; the last cell keeps
      its record. */
  method SelectRandomEntries<T>(a: array<T>, sizeDraw: nat, picks: seq<nat>) returns (batch: seq<T>)
    requires sizeDraw < 6
    requires ValidPicks(a.Length, BatchSize(sizeDraw), picks)
    modifies a
    ensures batch == Draw(old(a[..]), BatchSize(sizeDraw), picks).batch
    ensures |batch| == Min(BatchSize(sizeDraw), a.Length)
    ensures multiset(batch) <= multiset(old(a[..]))
    ensures a[..a.Length - |batch|] == Draw(old(a[..]), BatchSize(sizeDraw), picks).rest
    ensures a[a.Length - |batch|..] == Stranded(old(a[..]), BatchSize(sizeDraw), picks)
    ensures a.Length > 0 ==> a[a.Length - 1] == old(a[a.Length - 1])
  {
    ghost var start := a[..];
    var n := BatchSize(sizeDraw);
    batch := DrawInPlace(a, n, picks);
    Settled(start, n, picks, batch, a[..]);
  }

  /** The facts the loop's exit state yields about the caller's array. */
  lemma Settled<T>(start: seq<T>, n: nat, picks: seq<nat>, batch: seq<T>, final: seq<T>)
    requires ValidPicks(|start|, n, picks)
    requires batch == Draw(start, n, picks).batch
    requires final == CallerAfter(start, n, picks)
    ensures |batch| == Min(n, |start|)
    ensures multiset(batch) <= multiset(start)
    ensures final[..|start| - |batch|] == Draw(start, n, picks).rest
    ensures final[|start| - |batch|..] == Stranded(start, n, picks)
    ensures |start| > 0 ==> final[|start| - 1] == start[|start| - 1]
  {
    DrawPermutes(start, n, picks);
    assert multiset(batch) + multiset(Draw(start, n, picks).rest) == multiset(start);
    CallerLayout(start, n, picks);
  }

  /** The corrected sampler: draw from a private copy of the records, so the
      caller's slice is left as it was. With the same draws it returns the
      same batch as selectRandomEntries. */
  method SelectRandomEntriesFromCopy<T>(datas: array<T>, sizeDraw: nat, picks: seq<nat>) returns (batch: seq<T>)
    requires sizeDraw < 6
    requires ValidPicks(datas.Length, BatchSize(sizeDraw), picks)
    ensures batch == Draw(datas[..], BatchSize(sizeDraw), picks).batch
    ensures |batch| == Min(BatchSize(sizeDraw), datas.Length)
    ensures multiset(batch) <= multiset(datas[..])
  {
    var scratch := new T[datas.Length](i requires 0 <= i < datas.Length reads datas => datas[i]);
    assert scratch[..] == datas[..];
    batch := SelectRandomEntries(scratch, sizeDraw, picks);
  }
}
