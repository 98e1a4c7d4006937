/** Server snapshots as the compute API returns them, the provider-agnostic
    `Host` built from them, and the fixed status vocabulary mapping. */
module Hosts {
  import opened Wrappers
  import opened Json

  /** The normalized host status. */
  datatype Status = Active | Provisioning | Deleted | Error | Other

  /** STATUS_MAP: the raw OpenStack statuses the provider names explicitly. */
  const StatusMap: map<string, Status> :=
    map["ACTIVE" := Active, "BUILD" := Provisioning, "DELETED" := Deleted, "ERROR" := Error]

  /** `STATUS_MAP.get(raw, STATUS_OTHER)`. */
  function StatusOf(raw: string): (s: Status)
    ensures s == Other <==> raw !in StatusMap
    ensures s == Active <==> raw == "ACTIVE"
    ensures s == Provisioning <==> raw == "BUILD"
    ensures s == Deleted <==> raw == "DELETED"
    ensures s == Error <==> raw == "ERROR"
  {
    if raw in StatusMap then StatusMap[raw] else Other
  }

  /** The addresses one network of a server carries; each entry is the
      `{"addr": ..., ...}` dict of one interface. */
  datatype AddressGroup = AddressGroup(network: string, ips: seq<Dict>)

  /** A server snapshot: id, display name, raw status, `addresses` in the
      order of the response's network map, and the optional `fault`. */
  datatype ServerRecord = ServerRecord(
    id: string,
    name: string,
    status: string,
    addresses: seq<AddressGroup>,
    fault: Option<Json>)

  /** The finished host handed back to the caller; `raw` keeps the snapshot. */
  datatype Host = Host(
    id: string,
    name: string,
    addresses: seq<Json>,
    status: Status,
    raw: ServerRecord,
    error: Option<Json>)

  /** Each interface's `addr` value, network after network. */
  function FlattenAddresses(groups: seq<AddressGroup>): seq<Json>
    decreases |groups|
  {
    if groups == [] then []
    else
      var last := groups[|groups| - 1];
      FlattenAddresses(groups[..|groups| - 1]) + seq(|last.ips|, j requires 0 <= j < |last.ips| => Get(last.ips[j], "addr"))
  }

  /** Number of interfaces across all networks of a server. */
  function InterfaceCount(groups: seq<AddressGroup>): nat
    decreases |groups|
  {
    if groups == [] then 0 else |groups[0].ips| + InterfaceCount(groups[1..])
  }

  /** `to_host`: builds the Host from a final server snapshot. */
  function ToHost(r: ServerRecord): Host {
    Host(r.id, r.name, FlattenAddresses(r.addresses), StatusOf(r.status), r, r.fault)
  }

  lemma {:induction false} InterfaceCountSnoc(groups: seq<AddressGroup>, g: AddressGroup)
    ensures InterfaceCount(groups + [g]) == InterfaceCount(groups) + |g.ips|
    decreases |groups|
  {
    if groups == [] {
      assert [g][1..] == [];
    } else {
      assert (groups + [g])[1..] == groups[1..] + [g];
      InterfaceCountSnoc(groups[1..], g);
    }
  }

  /** The flattened list holds every interface's address exactly once, grouped
      by network in response order: interface `j` of network `i` sits after all
      interfaces of the networks before `i`. */
  lemma {:induction false} FlattenAddressesLayout(groups: seq<AddressGroup>, i: nat, j: nat)
    requires i < |groups| && j < |groups[i].ips|
    ensures |FlattenAddresses(groups)| == InterfaceCount(groups)
    ensures InterfaceCount(groups[..i]) + j < |FlattenAddresses(groups)|
    ensures FlattenAddresses(groups)[InterfaceCount(groups[..i]) + j] == Get(groups[i].ips[j], "addr")
    decreases |groups|
  {
    var n := |groups| - 1;
    var init := groups[..n];
    assert groups == init + [groups[n]];
    FlattenLength(groups);
    if i == n {
      FlattenLength(init);
      assert groups[..i] == init;
    } else {
      FlattenAddressesLayout(init, i, j);
      assert init[..i] == groups[..i];
      InterfaceCountSnoc(init, groups[n]);
    }
  }

  lemma {:induction false} FlattenLength(groups: seq<AddressGroup>)
    ensures |FlattenAddresses(groups)| == InterfaceCount(groups)
    decreases |groups|
  {
    if groups != [] {
      var n := |groups| - 1;
      FlattenLength(groups[..n]);
      assert groups == groups[..n] + [groups[n]];
      InterfaceCountSnoc(groups[..n], groups[n]);
    }
  }

  /** `to_host` keeps the snapshot's identity and raw record, normalizes the
      status through STATUS_MAP (unknown statuses become Other), and carries
      the fault as the host's error. */
  lemma ToHostFaithful(r: ServerRecord)
    ensures ToHost(r).id == r.id && ToHost(r).name == r.name && ToHost(r).raw == r
    ensures ToHost(r).error == r.fault
    ensures ToHost(r).status == Other <==> r.status !in StatusMap
    ensures ToHost(r).status == Active <==> r.status == "ACTIVE"
    ensures ToHost(r).status == Provisioning <==> r.status == "BUILD"
    ensures ToHost(r).status == Deleted <==> r.status == "DELETED"
    ensures ToHost(r).status == Error <==> r.status == "ERROR"
    ensures |ToHost(r).addresses| == InterfaceCount(r.addresses)
  {
    FlattenLength(r.addresses);
  }
}
