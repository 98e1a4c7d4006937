/** Admission control: the vCPU and RAM a batch needs, checked against the
    account limits snapshot taken when the catalog was loaded. */
module Admission {
  import opened Wrappers
  import opened Json
  import opened Catalog
  import opened Errors
  import opened Resolver

  datatype Needs = Needs(ram: int, vcpus: int)

  /** `get_host_requirements`. The flavor is chosen as `_translate_flavor`
      chooses it, but without its `flavor = None` initializer and its check:
      with neither field truthy the local is unbound, and an unresolved
      flavor is subscripted as None. */
  function HostRequirements(c: Catalog, req: Dict): (r: Result<Needs, Error>)
    ensures r.Success? <==> TranslateFlavor(c, req).Success?
    ensures r.Success? ==> r.value == Needs(TranslateFlavor(c, req).value.ram, TranslateFlavor(c, req).value.vcpus)
    ensures !Truthy(Get(req, "flavor")) && !Truthy(Get(req, "flavorRef"))
            ==> r == Failure(RuntimeFault(UnboundLocal("flavor")))
    ensures (Truthy(Get(req, "flavor")) || Truthy(Get(req, "flavorRef"))) && r.Failure?
            ==> r == Failure(RuntimeFault(NoneNotSubscriptable))
  {
    var spec := Get(req, "flavor");
    var ref := Get(req, "flavorRef");
    if !Truthy(spec) && !Truthy(ref) then Failure(RuntimeFault(UnboundLocal("flavor")))
    else
      match Resolve(c.flavors, spec, ref)
      case None => Failure(RuntimeFault(NoneNotSubscriptable))
      case Some(f) => Success(Needs(f.ram, f.vcpus))
  }

  /** The vCPUs of the batch's resolved flavors (an unresolved one adds 0). */
  function BatchVcpus(c: Catalog, reqs: seq<Dict>): int
    decreases |reqs|
  {
    if reqs == [] then 0
    else
      var f := TranslateFlavor(c, reqs[|reqs| - 1]);
      BatchVcpus(c, reqs[..|reqs| - 1]) + (if f.Success? then f.value.vcpus else 0)
  }

  /** The RAM of the batch's resolved flavors (an unresolved one adds 0). */
  function BatchRam(c: Catalog, reqs: seq<Dict>): int
    decreases |reqs|
  {
    if reqs == [] then 0
    else
      var f := TranslateFlavor(c, reqs[|reqs| - 1]);
      BatchRam(c, reqs[..|reqs| - 1]) + (if f.Success? then f.value.ram else 0)
  }

  lemma {:induction false} BatchSumsAppend(c: Catalog, a: seq<Dict>, b: seq<Dict>)
    ensures BatchVcpus(c, a + b) == BatchVcpus(c, a) + BatchVcpus(c, b)
    ensures BatchRam(c, a + b) == BatchRam(c, a) + BatchRam(c, b)
    decreases |b|
  {
    if b == [] {
      assert a + b == a;
    } else {
      var n := |b| - 1;
      assert (a + b)[..|a + b| - 1] == a + b[..n];
      assert (a + b)[|a + b| - 1] == b[n];
      BatchSumsAppend(c, a, b[..n]);
    }
  }

  /** The vCPU and RAM totals of a list of needs, summed like BatchVcpus. */
  function SumNeeds(ns: seq<Needs>): (int, int)
    decreases |ns|
  {
    if ns == [] then (0, 0)
    else
      var t := SumNeeds(ns[..|ns| - 1]);
      (t.0 + ns[|ns| - 1].vcpus, t.1 + ns[|ns| - 1].ram)
  }

  /** Summing the needs of every requirement gives the batch totals. */
  lemma {:induction false} SumNeedsOfBatch(c: Catalog, reqs: seq<Dict>, ns: seq<Needs>)
    requires |ns| == |reqs|
    requires forall i :: 0 <= i < |reqs| ==> HostRequirements(c, reqs[i]) == Success(ns[i])
    ensures SumNeeds(ns) == (BatchVcpus(c, reqs), BatchRam(c, reqs))
    decreases |reqs|
  {
    if reqs != [] {
      var n := |reqs| - 1;
      assert forall i :: 0 <= i < n ==> reqs[..n][i] == reqs[i] && ns[..n][i] == ns[i];
      SumNeedsOfBatch(c, reqs[..n], ns[..n]);
      assert HostRequirements(c, reqs[n]) == Success(ns[n]);
    }
  }

  /** The accumulation loop of `can_provision`: the needs of every
      requirement in order, stopping at the first that raises, added to the
      running totals. */
  function Tally(c: Catalog, reqs: seq<Dict>, vcpus: int, ram: int): (r: Result<(int, int), Error>)
    ensures r.Success? <==> forall i :: 0 <= i < |reqs| ==> HostRequirements(c, reqs[i]).Success?
    ensures r.Success? ==> r.value == (vcpus + BatchVcpus(c, reqs), ram + BatchRam(c, reqs))
    ensures r.Failure? ==>
      exists k :: 0 <= k < |reqs| && HostRequirements(c, reqs[k]) == Failure(r.error)
                  && forall j :: 0 <= j < k ==> HostRequirements(c, reqs[j]).Success?
  {
    match MapAll(reqs, (req: Dict) => HostRequirements(c, req))
    case Failure(e) => Failure(e)
    case Success(ns) =>
      SumNeedsOfBatch(c, reqs, ns);
      var totals := SumNeeds(ns);
      Success((vcpus + totals.0, ram + totals.1))
  }

  /** `can_provision`: true iff the used vCPUs plus the batch's vCPUs stay
      within the vCPU maximum AND the used RAM plus the batch's RAM stays
      within the RAM maximum; reaching a maximum exactly is admitted. A
      requirement whose flavor does not resolve raises. */
  function CanProvision(c: Catalog, reqs: seq<Dict>): (r: Result<bool, Error>)
    ensures r.Success? <==> forall i :: 0 <= i < |reqs| ==> HostRequirements(c, reqs[i]).Success?
    ensures r.Success? ==>
      (r.value <==> c.limits.totalCoresUsed + BatchVcpus(c, reqs) <= c.limits.maxTotalCores
                    && c.limits.totalRAMUsed + BatchRam(c, reqs) <= c.limits.maxTotalRAMSize)
    ensures r.Failure? ==>
      exists k :: 0 <= k < |reqs| && HostRequirements(c, reqs[k]) == Failure(r.error)
                  && forall j :: 0 <= j < k ==> HostRequirements(c, reqs[j]).Success?
  {
    var totals :- Tally(c, reqs, 0, 0);
    var limits := c.limits;
    Success(limits.totalCoresUsed + totals.0 <= limits.maxTotalCores
            && limits.totalRAMUsed + totals.1 <= limits.maxTotalRAMSize)
  }

  /** An empty batch adds nothing: it is admitted exactly when the usage
      already recorded is within both maxima. */
  lemma EmptyBatchAdmission(c: Catalog)
    ensures CanProvision(c, []) == Success(c.limits.totalCoresUsed <= c.limits.maxTotalCores
                                           && c.limits.totalRAMUsed <= c.limits.maxTotalRAMSize)
  {
  }

  /** A validated batch never makes admission raise. */
  lemma AdmissionAfterValidation(c: Catalog, reqs: seq<Dict>)
    requires ValidateHosts(c, reqs).Success?
    ensures CanProvision(c, reqs).Success?
  {
    forall i | 0 <= i < |reqs| ensures HostRequirements(c, reqs[i]).Success? {
      assert ValidateHost(c, reqs[i]).Success?;
    }
  }

  /** Dropping hosts whose flavors need nothing negative from the end of an
      admitted batch keeps it admitted. */
  lemma AdmittedPrefix(c: Catalog, reqs: seq<Dict>, more: seq<Dict>)
    requires CanProvision(c, reqs + more) == Success(true)
    requires BatchVcpus(c, more) >= 0 && BatchRam(c, more) >= 0
    ensures CanProvision(c, reqs) == Success(true)
  {
    assert CanProvision(c, reqs).Success? by {
      forall i | 0 <= i < |reqs| ensures HostRequirements(c, reqs[i]).Success? {
        assert (reqs + more)[i] == reqs[i];
      }
    }
    BatchSumsAppend(c, reqs, more);
  }
}
