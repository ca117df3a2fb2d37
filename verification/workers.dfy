/** The load generator's worker pool: `for i := range numWorkers` starts one
    worker per id, and each worker repeatedly picks an endpoint and a batch
    and posts it. The posting, the goroutines and the cancellation that ends
    the repetition are not modelled; one iteration is, with the corrected
    sampler that leaves the shared records untouched. */
module Workers {
  import opened Prelude
  import opened Endpoints
  import opened Sampling
  import opened SharedSlice

  /** The ids of the workers started by ranging over numWorkers: 0 up to
      numWorkers - 1 in order, and none when numWorkers is zero or
      negative. */
  method StartWorkers(numWorkers: int) returns (ids: seq<nat>)
    ensures |ids| == (if numWorkers > 0 then numWorkers else 0)
    ensures forall j :: 0 <= j < |ids| ==> ids[j] == j
  {
    ids := [];
    var i: nat := 0;
    while i < numWorkers
      invariant numWorkers > 0 ==> i <= numWorkers
      invariant numWorkers <= 0 ==> i == 0
      invariant |ids| == i
      invariant forall j :: 0 <= j < i ==> ids[j] == j
    {
      ids := ids + [i];
      i := i + 1;
    }
  }

  /** One request a worker sends: where to, and which records. */
  datatype Request<T> = Request(endpoint: string, batch: seq<T>)

  /** One iteration of a worker's loop over the ten configured targets and
      the loaded records. It cannot panic, it sends to the primary target
      exactly when the weighted draw says so, and it sends between five and
      ten of the records (all of them when there are fewer), each taken at
      most as often as it occurs; the records are not modified. */
  method Iterate<T>(datas: array<T>, belowCut: bool, k: nat, sizeDraw: nat, picks: seq<nat>)
    returns (req: Request<T>)
    requires ValidSecondaryDraw(|Targets|, belowCut, k)
    requires sizeDraw < 6
    requires ValidPicks(datas.Length, BatchSize(sizeDraw), picks)
    ensures req.endpoint in Targets
    ensures req.endpoint == Targets[0] <==> belowCut
    ensures |req.batch| == Min(BatchSize(sizeDraw), datas.Length)
    ensures datas.Length >= 5 ==> 5 <= |req.batch| <= 10
    ensures multiset(req.batch) <= multiset(datas[..])
  {
    TargetsNeverPanic(belowCut, k);
    var endpoint := SelectEndpoint(Targets, belowCut, k).value;
    if !belowCut {
      TargetsDistinct(k + 1);
    }
    var batch := SelectRandomEntriesFromCopy(datas, sizeDraw, picks);
    req := Request(endpoint, batch);
  }

  /** The ten targets differ from the primary one. */
  lemma TargetsDistinct(i: nat)
    requires 1 <= i < |Targets|
    ensures Targets[i] != Targets[0]
  {
    assert Targets[i][|Targets[i]| - 1] != Targets[0][|Targets[0]| - 1];
  }
}
