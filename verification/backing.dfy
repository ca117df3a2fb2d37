/** What selectRandomEntries does to its caller's memory. The parameter
    `entries` is a slice header over the caller's backing array, and
    `append(entries[:idx], entries[idx+1:]...)` needs len - 1 cells, which
    the capacity always provides: the append never reallocates, it copies
    cells idx+1..len-1 one place to the left inside the caller's array and
    shrinks only the local length. The caller's own slice keeps its length. */
module Backing {
  import opened Prelude
  import opened Sampling

  /** The caller's backing array after one in-place deletion at idx from a
      local slice of length len. */
  function ShiftDelete<T>(backing: seq<T>, len: nat, idx: nat): (r: seq<T>)
    requires idx < len <= |backing|
    ensures |r| == |backing|
    ensures r[..len - 1] == RemoveAt(backing[..len], idx)
    ensures r[len - 1..] == backing[len - 1..]
  {
    var r := backing[..idx] + backing[idx + 1..len] + backing[len - 1..];
    assert r[..len - 1] == RemoveAt(backing[..len], idx);
    assert r[len - 1..] == backing[len - 1..];
    r
  }

  /** The values left in the cells the local slice shrinks away from, lowest
      cell first: the j-th deletion (counting from 1) strands, in cell
      len - j, the last entry of the slice as it was just before that
      deletion. */
  function Stranded<T>(entries: seq<T>, n: nat, picks: seq<nat>): (r: seq<T>)
    requires ValidPicks(|entries|, n, picks)
    ensures |r| == Min(n, |entries|)
    ensures |r| > 0 ==> r[|r| - 1] == entries[|entries| - 1]
    decreases n
  {
    if n == 0 || |entries| == 0 then []
    else Stranded(RemoveAt(entries, picks[0]), n - 1, picks[1..]) + [entries[|entries| - 1]]
  }

  /** What the caller's slice holds once the call returns: the records not
      drawn, packed in front, then the stranded values. */
  function CallerAfter<T>(entries: seq<T>, n: nat, picks: seq<nat>): (r: seq<T>)
    requires ValidPicks(|entries|, n, picks)
    ensures |r| == |entries|
  {
    Draw(entries, n, picks).rest + Stranded(entries, n, picks)
  }

  lemma StrandedStep<T>(entries: seq<T>, n: nat, picks: seq<nat>)
    requires ValidPicks(|entries|, n, picks)
    requires n > 0 && |entries| > 0
    ensures picks[0] < |entries|
    ensures Stranded(entries, n, picks)
         == Stranded(RemoveAt(entries, picks[0]), n - 1, picks[1..]) + [entries[|entries| - 1]]
  {
  }

  /** The loop's (i+1)-th iteration, seen from the front: the value it
      strands is the last record the first i iterations left, and it lands
      just below the values stranded before. */
  lemma {:induction false} StrandedSnoc<T>(entries: seq<T>, i: nat, picks: seq<nat>)
    requires ValidPicks(|entries|, i + 1, picks) && i < |entries|
    ensures ValidPicks(|entries|, i, picks)
    ensures |Draw(entries, i, picks).rest| == |entries| - i
    ensures Stranded(entries, i + 1, picks)
         == [Draw(entries, i, picks).rest[|entries| - i - 1]] + Stranded(entries, i, picks)
    decreases i
  {
    ValidPicksShorter(|entries|, i + 1, picks, i);
    var last := entries[|entries| - 1];
    StrandedStep(entries, i + 1, picks);
    var pool := RemoveAt(entries, picks[0]);
    if i == 0 {
      assert Draw(entries, 0, picks).rest == entries;
    } else {
      StrandedSnoc(pool, i - 1, picks[1..]);
      DrawStep(entries, i, picks);
      StrandedStep(entries, i, picks);
      var x := Draw(pool, i - 1, picks[1..]).rest[|pool| - (i - 1) - 1];
      assert Draw(entries, i, picks).rest == Draw(pool, i - 1, picks[1..]).rest;
      assert Stranded(entries, i + 1, picks) == ([x] + Stranded(pool, i - 1, picks[1..])) + [last];
      assert Stranded(entries, i, picks) == Stranded(pool, i - 1, picks[1..]) + [last];
    }
  }

  /** Once the slice is empty nothing more is stranded. */
  lemma {:induction false} StrandedSaturates<T>(entries: seq<T>, n: nat, picks: seq<nat>)
    requires ValidPicks(|entries|, n, picks) && n >= |entries|
    ensures ValidPicks(|entries|, |entries|, picks)
    ensures Stranded(entries, n, picks) == Stranded(entries, |entries|, picks)
    decreases |entries|
  {
    ValidPicksShorter(|entries|, n, picks, |entries|);
    if |entries| > 0 {
      var pool := RemoveAt(entries, picks[0]);
      StrandedSaturates(pool, n - 1, picks[1..]);
      StrandedStep(entries, n, picks);
      StrandedStep(entries, |entries|, picks);
    }
  }

  /** One in-place deletion on the caller's array, when it holds the slice
      `rest` in front of values stranded earlier: the slice loses position
      idx and its last record is stranded in front of the others. */
  lemma ShiftDeleteLayout<T>(rest: seq<T>, stranded: seq<T>, idx: nat)
    requires idx < |rest|
    ensures ShiftDelete(rest + stranded, |rest|, idx)
         == RemoveAt(rest, idx) + ([rest[|rest| - 1]] + stranded)
  {
    var b := rest + stranded;
    var r := ShiftDelete(b, |rest|, idx);
    assert b[..|rest|] == rest;
    assert b[|rest| - 1..] == [rest[|rest| - 1]] + stranded;
    assert r == r[..|rest| - 1] + r[|rest| - 1..];
  }

  /** The layout of the caller's array after a call that drew a batch of m
      records: cells 0..L-m-1 hold the records not drawn in their original
      order, cells L-m..L-1 hold the stranded values, and the last cell
      keeps its record. */
  lemma CallerLayout<T>(datas: seq<T>, n: nat, picks: seq<nat>)
    requires ValidPicks(|datas|, n, picks)
    ensures |Draw(datas, n, picks).batch| <= |datas|
    ensures CallerAfter(datas, n, picks)[..|datas| - |Draw(datas, n, picks).batch|]
         == Draw(datas, n, picks).rest
    ensures CallerAfter(datas, n, picks)[|datas| - |Draw(datas, n, picks).batch|..]
         == Stranded(datas, n, picks)
    ensures |datas| > 0 ==> CallerAfter(datas, n, picks)[|datas| - 1] == datas[|datas| - 1]
  {
    var d := Draw(datas, n, picks);
    var st := Stranded(datas, n, picks);
    var r := CallerAfter(datas, n, picks);
    assert r == d.rest + st;
    assert |d.rest| == |datas| - |d.batch|;
    assert r[..|d.rest|] == d.rest && r[|d.rest|..] == st;
    if |datas| > 0 {
      if |st| == 0 {
        assert n == 0 && d.rest == datas;
      } else {
        assert r[|datas| - 1] == st[|st| - 1];
      }
    }
  }

  lemma DrawOneTwoThree()
    ensures ValidPicks(3, 5, [0, 0, 0])
    ensures Draw([1, 2, 3], 5, [0, 0, 0]) == Split([1, 2, 3], [])
  {
    var p: seq<nat> := [0, 0, 0];
    assert p[1..] == [0, 0] && p[1..][1..] == [0];
    assert RemoveAt([1, 2, 3], 0) == [2, 3];
    assert RemoveAt([2, 3], 0) == [3];
    assert RemoveAt([3], 0) == [];
    assert Draw([3], 3, [0]) == Split([3], []);
    assert Draw([2, 3], 4, [0, 0]) == Split([2, 3], []);
  }

  lemma StrandedThree()
    ensures ValidPicks(1, 3, [0]) && Stranded([3], 3, [0]) == [3]
  {
    assert RemoveAt([3], 0) == [];
    StrandedStep([3], 3, [0]);
  }

  lemma StrandedTwoThree()
    ensures ValidPicks(2, 4, [0, 0]) && Stranded([2, 3], 4, [0, 0]) == [3, 3]
  {
    var p: seq<nat> := [0, 0];
    assert p[1..] == [0];
    assert RemoveAt([2, 3], 0) == [3];
    StrandedThree();
    StrandedStep([2, 3], 4, p);
  }

  lemma StrandedOneTwoThree()
    ensures ValidPicks(3, 5, [0, 0, 0]) && Stranded([1, 2, 3], 5, [0, 0, 0]) == [3, 3, 3]
  {
    var p: seq<nat> := [0, 0, 0];
    assert p[1..] == [0, 0];
    assert RemoveAt([1, 2, 3], 0) == [2, 3];
    StrandedTwoThree();
    StrandedStep([1, 2, 3], 5, p);
  }

  /** The shared record set is corrupted: three distinct records, a batch
      drawn at index 0 three times, and the caller's slice is left holding
      the third record three times over. The batch itself is correct. */
  lemma SharedRecordsCorrupted()
    ensures ValidPicks(3, 5, [0, 0, 0])
    ensures Draw([1, 2, 3], 5, [0, 0, 0]).batch == [1, 2, 3]
    ensures CallerAfter([1, 2, 3], 5, [0, 0, 0]) == [3, 3, 3]
  {
    DrawOneTwoThree();
    StrandedOneTwoThree();
  }

  lemma DrawThreeAlike()
    ensures ValidPicks(3, 5, [0, 0, 0])
    ensures Draw([3, 3, 3], 5, [0, 0, 0]).batch == [3, 3, 3]
  {
    var p: seq<nat> := [0, 0, 0];
    assert p[1..] == [0, 0] && p[1..][1..] == [0];
    assert RemoveAt([3, 3, 3], 0) == [3, 3];
    assert RemoveAt([3, 3], 0) == [3];
    assert RemoveAt([3], 0) == [];
    assert Draw([3], 3, [0]) == Split([3], []);
    assert Draw([3, 3], 4, [0, 0]) == Split([3, 3], []);
    assert Draw([3, 3, 3], 5, p) == Split([3, 3, 3], []);
  }

  /** The corruption is visible to the next draw: a second call on the same
      slice returns a batch that repeats one record three times, although
      the records loaded were distinct. */
  lemma SecondCallRepeatsRecord()
    ensures ValidPicks(3, 5, [0, 0, 0])
    ensures Draw(CallerAfter([1, 2, 3], 5, [0, 0, 0]), 5, [0, 0, 0]).batch == [3, 3, 3]
  {
    SharedRecordsCorrupted();
    DrawThreeAlike();
  }
}
