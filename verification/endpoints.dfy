/** Weighted endpoint choice: the primary endpoint (index 0) when a uniform
    draw falls below 0.8, otherwise one of the secondary endpoints 1..len-1.
    The two random draws are parameters: `belowCut` stands for
    `rand.Float64() < 0.8` and `k` for the value of `rand.Intn(len - 1)`. */
module Endpoints {
  import opened Prelude

  /** The ten target URLs wired into the program. */
  const Targets: seq<string> := [
    "http://http-service.default.svc.cluster.local/snowpipe/insert/BENTHOS_DB/PUBLIC/TABLE_A",
    "http://http-service.default.svc.cluster.local/snowpipe/insert/BENTHOS_DB/PUBLIC/TABLE_B",
    "http://http-service.default.svc.cluster.local/snowpipe/insert/BENTHOS_DB/PUBLIC/TABLE_C",
    "http://http-service.default.svc.cluster.local/snowpipe/insert/BENTHOS_DB/PUBLIC/TABLE_D",
    "http://http-service.default.svc.cluster.local/snowpipe/insert/BENTHOS_DB/PUBLIC/TABLE_E",
    "http://http-service.default.svc.cluster.local/snowpipe/insert/BENTHOS_DB/PUBLIC/TABLE_F",
    "http://http-service.default.svc.cluster.local/snowpipe/insert/BENTHOS_DB/PUBLIC/TABLE_G",
    "http://http-service.default.svc.cluster.local/snowpipe/insert/BENTHOS_DB/PUBLIC/TABLE_H",
    "http://http-service.default.svc.cluster.local/snowpipe/insert/BENTHOS_DB/PUBLIC/TABLE_I",
    "http://http-service.default.svc.cluster.local/snowpipe/insert/BENTHOS_DB/PUBLIC/TABLE_J"
  ]

  /** What `rand.Intn(m)` promises: a value in [0, m) whenever m > 0. The
      draw `k` is only constrained when the secondary branch actually calls
      `rand.Intn` with a positive argument. */
  predicate ValidSecondaryDraw(count: nat, belowCut: bool, k: nat)
  {
    !belowCut && count >= 2 ==> k < count - 1
  }

  /** The index of the endpoint chosen among `count` endpoints, or the panic
      the Go code raises: indexing an empty slice on the primary branch,
      `rand.Intn` of a non-positive number on the secondary one. */
  function SelectIndex(count: nat, belowCut: bool, k: nat): (r: Result<nat>)
    requires ValidSecondaryDraw(count, belowCut, k)
    ensures r.Ok? <==> count >= (if belowCut then 1 else 2)
    ensures r.Ok? ==> r.value < count
    ensures r.Ok? ==> (r.value == 0 <==> belowCut)
    ensures r.Ok? && !belowCut ==> r.value == k + 1
    ensures r.Panicked? && belowCut ==> r.panic == IndexOutOfRange
    ensures r.Panicked? && !belowCut ==> r.panic == IntnNonPositive
  {
    if belowCut then
      if count == 0 then Panicked(IndexOutOfRange) else Ok(0)
    else if count - 1 <= 0 then
      Panicked(IntnNonPositive)
    else
      Ok(k + 1)
  }

  /** selectEndpoint: the endpoint at the chosen index. */
  function SelectEndpoint(endpoints: seq<string>, belowCut: bool, k: nat): (r: Result<string>)
    requires ValidSecondaryDraw(|endpoints|, belowCut, k)
    ensures r.Ok? <==> |endpoints| >= (if belowCut then 1 else 2)
    ensures r.Ok? ==> r.value in endpoints
    ensures r.Ok? && belowCut ==> r.value == endpoints[0]
    ensures r.Ok? && !belowCut ==> 1 <= k + 1 < |endpoints| && r.value == endpoints[k + 1]
    ensures r.Panicked? ==> r == Panicked(if belowCut then IndexOutOfRange else IntnNonPositive)
  {
    match SelectIndex(|endpoints|, belowCut, k)
    case Ok(i) => Ok(endpoints[i])
    case Panicked(p) => Panicked(p)
  }

  /** The secondary branch maps the draws 0..count-2 one-to-one onto the
      indices 1..count-1 (draw j - 1 yields index j): a uniform `rand.Intn` makes every secondary endpoint
      equally likely and never picks the primary one. */
  lemma SecondaryIsBijection(count: nat)
    requires count >= 2
    ensures forall j: nat | 1 <= j < count :: SelectIndex(count, false, j - 1) == Ok(j)
    ensures forall k1: nat, k2: nat ::
      (k1 < count - 1 && k2 < count - 1 &&
       SelectIndex(count, false, k1) == SelectIndex(count, false, k2)) ==> k1 == k2
  {
  }

  /** With only one endpoint configured, every secondary draw panics. */
  lemma SingleEndpointPanics(endpoint: string, k: nat)
    ensures SelectEndpoint([endpoint], false, k) == Panicked(IntnNonPositive)
    ensures SelectEndpoint([endpoint], true, k) == Ok(endpoint)
  {
  }

  /** With the ten configured targets no draw panics. */
  lemma TargetsNeverPanic(belowCut: bool, k: nat)
    requires ValidSecondaryDraw(|Targets|, belowCut, k)
    ensures SelectEndpoint(Targets, belowCut, k).Ok?
    ensures belowCut ==> SelectEndpoint(Targets, belowCut, k).value == Targets[0]
  {
  }
}
