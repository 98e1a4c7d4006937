/** `provision_hosts` and the deletion helpers. The remote calls are
    replaced by oracle sequences lined up with the requirements: the reply to
    each create call, the replies to each server's status checks, and the
    reply to each delete call. `asyncio.gather` keeps its results in input
    order, so the joins are sequential maps over those sequences. */
module Orchestrator {
  import opened Wrappers
  import opened Json
  import opened Hosts
  import opened Catalog
  import opened Errors
  import opened Resolver
  import opened Admission
  import opened Polling

  /** The compute API's answer to a create call: the new server's id, or an
      error response. */
  datatype CreateReply = Created(id: string) | CreateRejected

  /** The compute API's answer to a force-delete call. */
  datatype DeleteReply = DeleteAccepted | DeleteNotFound | DeleteRejected

  /** What `delete_host` can be handed: a Host object, or a raw server dict
      as returned by polling. */
  datatype DeleteTarget = HostObject(host: Host) | RawServer(record: ServerRecord)

  /** Everything a provisioning run did: its result, the payload of every
      create call it issued, and the ids it issued deletes for. */
  datatype Run = Run(result: Result<seq<Host>, Error>, posted: seq<Dict>, deleted: seq<string>)

  /** A run's intermediate point: stopped with a final run, or every created
      server polled to a final snapshot. */
  datatype Stage = Stopped(run: Run) | Settled(posted: seq<Dict>, records: seq<ServerRecord>)

  function Zip<A, B>(a: seq<A>, b: seq<B>): (z: seq<(A, B)>)
    requires |a| == |b|
    ensures |z| == |a| && forall i :: 0 <= i < |a| ==> z[i] == (a[i], b[i])
  {
    seq(|a|, i requires 0 <= i < |a| => (a[i], b[i]))
  }

  /** The first `n` elements (all of them when there are fewer). */
  function Take<T>(s: seq<T>, n: nat): seq<T> {
    if n <= |s| then s[..n] else s
  }

  // ---------------------------------------------------------------------
  // Deletion.

  /** `delete_server`: a not-found reply means the server is already gone
      and is swallowed; any other failure propagates. */
  function DeleteServer(uuid: string, reply: DeleteReply): (r: Result<(), Error>)
    ensures r.Success? <==> reply != DeleteRejected
    ensures r.Failure? ==> r.error == RemoteError(DeleteCall(uuid))
  {
    if reply == DeleteRejected then Failure(RemoteError(DeleteCall(uuid))) else Success(())
  }

  /** The `_id` attribute: a Host object has one, a dict has no attributes. */
  function IdAttribute(t: DeleteTarget): Option<string> {
    match t
    case HostObject(h) => Some(h.id)
    case RawServer(_) => None
  }

  /** `delete_host`: deletes the server behind `host._id`, returning True. */
  function DeleteHost(t: DeleteTarget, reply: DeleteReply): (r: Result<bool, Error>)
    ensures IdAttribute(t).None? ==> r == Failure(RuntimeFault(MissingAttribute("_id")))
    ensures IdAttribute(t).Some? ==> (r.Success? <==> reply != DeleteRejected)
    ensures r.Success? ==> r.value
  {
    match IdAttribute(t)
    case None => Failure(RuntimeFault(MissingAttribute("_id")))
    case Some(uuid) =>
      var _ :- DeleteServer(uuid, reply);
      Success(true)
  }

  /** The ids `delete_hosts` sends a delete for: every deletion task runs,
      and each reaches the remote call exactly when its `_id` resolves. */
  function IssuedDeletes(targets: seq<DeleteTarget>): (ids: seq<string>)
    ensures |ids| <= |targets|
    decreases |targets|
  {
    if targets == [] then []
    else
      (match IdAttribute(targets[0]) case Some(id) => [id] case None => [])
      + IssuedDeletes(targets[1..])
  }

  /** `delete_hosts`: launches one deletion per target and joins them. */
  function DeleteHosts(targets: seq<DeleteTarget>, replies: seq<DeleteReply>): (r: Result<seq<bool>, Error>)
    requires |replies| == |targets|
    ensures r.Success? <==> forall i :: 0 <= i < |targets| ==> DeleteHost(targets[i], replies[i]).Success?
    ensures r.Success? ==> |r.value| == |targets| && forall i :: 0 <= i < |targets| ==> r.value[i]
    ensures r.Failure? ==>
      exists k :: 0 <= k < |targets| && DeleteHost(targets[k], replies[k]) == Failure(r.error)
  {
    var z := Zip(targets, replies);
    MapAll(z, (p: (DeleteTarget, DeleteReply)) => DeleteHost(p.0, p.1))
  }

  /** Deleting Host objects issues a delete for every one of them, in order,
      and succeeds when the only failures are not-found replies. */
  lemma DeleteHostsOfHosts(hosts: seq<Host>, replies: seq<DeleteReply>)
    requires |replies| == |hosts|
    ensures var targets := seq(|hosts|, i requires 0 <= i < |hosts| => HostObject(hosts[i]));
      && IssuedDeletes(targets) == seq(|hosts|, i requires 0 <= i < |hosts| => hosts[i].id)
      && (DeleteHosts(targets, replies).Success? <==> forall i :: 0 <= i < |replies| ==> replies[i] != DeleteRejected)
  {
    var targets := seq(|hosts|, i requires 0 <= i < |hosts| => HostObject(hosts[i]));
    HostTargetsIssueAll(targets);
  }

  lemma {:induction false} HostTargetsIssueAll(targets: seq<DeleteTarget>)
    requires forall i :: 0 <= i < |targets| ==> targets[i].HostObject?
    ensures IssuedDeletes(targets) == seq(|targets|, i requires 0 <= i < |targets| => targets[i].host.id)
    decreases |targets|
  {
    if targets != [] {
      HostTargetsIssueAll(targets[1..]);
    }
  }

  // ---------------------------------------------------------------------
  // Provisioning.

  /** The id a create call yields, or the create error that the join
      re-raises. */
  function CreateResult(reply: CreateReply): Result<string, Error> {
    match reply
    case Created(id) => Success(id)
    case CreateRejected => Failure(RemoteError(CreateCall))
  }

  /** How many status checks each server of a batch of `count` gets. The
      interval is zero only for an empty batch on a provider whose
      `poll_sleep` is 0, and an empty batch polls nothing. */
  function PollBudget(cfg: Config, count: nat): nat {
    var t := BatchTiming(cfg, count);
    if t.interval == 0 then 0 else |Checks(t)|
  }

  /** The poll of one created server over the replies of its checks. */
  function PollServer(budget: nat, job: (string, seq<PollReply>)): Result<ServerRecord, Error> {
    PollOutcome(job.0, Take(job.1, budget))
  }

  /** The create payloads of a batch, built in request order. */
  function Payloads(c: Catalog, hosts: seq<Dict>): Result<seq<Dict>, Error> {
    MapAll(hosts, (h: Dict) => BuildPayload(c, h))
  }

  /** The join over the create calls: every id, or the first create error. */
  function CreateAll(creates: seq<CreateReply>): (r: Result<seq<string>, Error>)
    ensures r.Success? <==> forall i :: 0 <= i < |creates| ==> creates[i].Created?
    ensures r.Success? ==> |r.value| == |creates| && forall i :: 0 <= i < |creates| ==> r.value[i] == creates[i].id
    ensures r.Failure? ==> r.error == RemoteError(CreateCall)
  {
    MapAll(creates, CreateResult)
  }

  /** The join over the polls of the created servers, each given `budget`
      status checks. */
  function PollAll(budget: nat, ids: seq<string>, polls: seq<seq<PollReply>>): (r: Result<seq<ServerRecord>, Error>)
    requires |ids| == |polls|
    ensures r.Success? <==> forall i :: 0 <= i < |ids| ==> PollOutcome(ids[i], Take(polls[i], budget)).Success?
    ensures r.Success? ==>
      |r.value| == |ids| && forall i :: 0 <= i < |ids| ==> PollOutcome(ids[i], Take(polls[i], budget)) == Success(r.value[i])
    ensures r.Failure? ==>
      exists k :: 0 <= k < |ids| && PollOutcome(ids[k], Take(polls[k], budget)) == Failure(r.error)
                  && forall j :: 0 <= j < k ==> PollOutcome(ids[j], Take(polls[j], budget)).Success?
  {
    var z := Zip(ids, polls);
    assert forall i :: 0 <= i < |z| ==> PollServer(budget, z[i]) == PollOutcome(ids[i], Take(polls[i], budget));
    MapAll(z, (job: (string, seq<PollReply>)) => PollServer(budget, job))
  }

  /** The oracles cover the batch: one create reply, one poll reply list
      long enough for every check before the deadline, and one delete reply
      per requirement. */
  ghost predicate Oracles(cfg: Config, hosts: seq<Dict>, creates: seq<CreateReply>,
                          polls: seq<seq<PollReply>>, deletes: seq<DeleteReply>)
  {
    && |creates| == |hosts| && |polls| == |hosts| && |deletes| == |hosts|
    && forall i :: 0 <= i < |polls| ==> |polls[i]| >= PollBudget(cfg, |hosts|)
  }

  /** Validation, admission, create calls and polling. Validation and
      admission failures stop the batch before any create call; a create
      failure or a poll failure propagates out of its join. */
  function Launch(cfg: Config, c: Catalog, hosts: seq<Dict>, creates: seq<CreateReply>,
                  polls: seq<seq<PollReply>>): (s: Stage)
    requires |creates| == |hosts| && |polls| == |hosts|
    ensures s.Settled? ==> |s.records| == |hosts| && |s.posted| == |hosts|
    ensures ValidateHosts(c, hosts).Failure? ==> s == Stopped(Run(Failure(ValidateHosts(c, hosts).error), [], []))
    ensures ValidateHosts(c, hosts).Success? && CanProvision(c, hosts) == Success(false)
            ==> s == Stopped(Run(Failure(ValidationError(NotEnoughResources)), [], []))
    ensures s.Stopped? ==> s.run.deleted == [] && s.run.result.Failure?
    ensures (s.Settled? && s.posted != []) || (s.Stopped? && s.run.posted != [])
            ==> ValidateHosts(c, hosts).Success? && CanProvision(c, hosts) == Success(true)
  {
    match ValidateHosts(c, hosts)
    case Failure(e) => Stopped(Run(Failure(e), [], []))
    case Success(_) =>
      match CanProvision(c, hosts)
      case Failure(e) => Stopped(Run(Failure(e), [], []))
      case Success(enough) =>
        if !enough then Stopped(Run(Failure(ValidationError(NotEnoughResources)), [], []))
        else
          match Payloads(c, hosts)
          case Failure(e) => Stopped(Run(Failure(e), [], []))
          case Success(posted) => Dispatch(PollBudget(cfg, |hosts|), posted, creates, polls)
  }

  /** The create calls for the built payloads, then the polls of the created
      servers. */
  function Dispatch(budget: nat, posted: seq<Dict>, creates: seq<CreateReply>, polls: seq<seq<PollReply>>): (s: Stage)
    requires |creates| == |polls|
    ensures s.Settled? ==> |s.records| == |creates| && s.posted == posted
    ensures s.Stopped? ==> s.run.deleted == [] && s.run.result.Failure? && s.run.posted == posted
  {
    match CreateAll(creates)
    case Failure(e) => Stopped(Run(Failure(e), posted, []))
    case Success(ids) =>
      match PollAll(budget, ids, polls)
      case Failure(e) => Stopped(Run(Failure(e), posted, []))
      case Success(records) => Settled(posted, records)
  }

  /** The servers whose raw status is "ERROR", in order. */
  function ErrorRecords(records: seq<ServerRecord>): (errs: seq<ServerRecord>)
    ensures forall x :: x in errs <==> x in records && x.status == "ERROR"
    ensures errs == [] <==> forall i :: 0 <= i < |records| ==> records[i].status != "ERROR"
    decreases |records|
  {
    if records == [] then []
    else (if records[0].status == "ERROR" then [records[0]] else []) + ErrorRecords(records[1..])
  }

  /** The server ids of the snapshots, in request order. */
  function Ids(records: seq<ServerRecord>): (ids: seq<string>)
    ensures |ids| == |records| && forall i :: 0 <= i < |records| ==> ids[i] == records[i].id
  {
    seq(|records|, i requires 0 <= i < |records| => records[i].id)
  }

  /** The "ERROR" records of a concatenation are those of its parts, in
      order: the filter keeps request order and every occurrence. */
  lemma {:induction false} ErrorRecordsAppend(a: seq<ServerRecord>, b: seq<ServerRecord>)
    ensures ErrorRecords(a + b) == ErrorRecords(a) + ErrorRecords(b)
    decreases |a|
  {
    if a == [] {
      assert a + b == b;
    } else {
      var head := if a[0].status == "ERROR" then [a[0]] else [];
      assert (a + b)[0] == a[0] && (a + b)[1..] == a[1..] + b;
      ErrorRecordsCons(a + b);
      ErrorRecordsCons(a);
      ErrorRecordsAppend(a[1..], b);
      ConcatAssociates(head, ErrorRecords(a[1..]), ErrorRecords(b));
    }
  }

  /** Proof aid for ErrorRecordsAppend: regrouping a concatenation. */
  lemma ConcatAssociates<T>(x: seq<T>, y: seq<T>, z: seq<T>)
    ensures x + (y + z) == (x + y) + z
  {
  }

  /** The filter looks at the first record, then at the rest. */
  lemma ErrorRecordsCons(s: seq<ServerRecord>)
    requires s != []
    ensures ErrorRecords(s) == (if s[0].status == "ERROR" then [s[0]] else []) + ErrorRecords(s[1..])
  {
  }

  /** One record is kept exactly when its raw status is "ERROR". */
  lemma ErrorRecordsSingle(x: ServerRecord)
    ensures ErrorRecords([x]) == if x.status == "ERROR" then [x] else []
  {
    assert [x][1..] == [];
  }

  /** One Host per final snapshot, in request order. */
  function ToHosts(records: seq<ServerRecord>): seq<Host> {
    seq(|records|, i requires 0 <= i < |records| => ToHost(records[i]))
  }

  /** The end of `provision_hosts`: with no raw "ERROR" the hosts are
      returned; otherwise every server is handed to `delete_hosts` and, if
      that join does not raise, ProvisioningError carries the error records. */
  function Conclude(records: seq<ServerRecord>, targets: seq<DeleteTarget>, deletes: seq<DeleteReply>)
    : (r: (Result<seq<Host>, Error>, seq<string>))
    requires |targets| == |deletes|
    ensures ErrorRecords(records) == [] ==> r == (Success(ToHosts(records)), [])
    ensures ErrorRecords(records) != [] ==> r.1 == IssuedDeletes(targets)
    ensures ErrorRecords(records) != [] && DeleteHosts(targets, deletes).Failure?
            ==> r.0 == Failure(DeleteHosts(targets, deletes).error)
    ensures ErrorRecords(records) != [] && DeleteHosts(targets, deletes).Success?
            ==> r.0 == Failure(ProvisioningError(ErrorRecords(records)))
  {
    var errors := ErrorRecords(records);
    if errors == [] then (Success(ToHosts(records)), [])
    else
      var deleted := IssuedDeletes(targets);
      match DeleteHosts(targets, deletes)
      case Failure(e) => (Failure(e), deleted)
      case Success(_) => (Failure(ProvisioningError(errors)), deleted)
  }

  /** What the rollback should hand to `delete_hosts`: Host objects, whose
      `_id` is the server id. */
  function RollbackTargets(records: seq<ServerRecord>): seq<DeleteTarget> {
    seq(|records|, i requires 0 <= i < |records| => HostObject(ToHost(records[i])))
  }

  /** What the rollback hands to `delete_hosts` as written: the raw server
      dicts returned by polling. */
  function RollbackTargetsAsWritten(records: seq<ServerRecord>): seq<DeleteTarget> {
    seq(|records|, i requires 0 <= i < |records| => RawServer(records[i]))
  }

  /** The run once the stage is reached, with the given rollback targets. */
  function FinishWith(s: Stage, targets: seq<DeleteTarget>, deletes: seq<DeleteReply>): Run
    requires |targets| == |deletes|
  {
    match s
    case Stopped(run) => run
    case Settled(posted, records) =>
      var outcome := Conclude(records, targets, deletes);
      Run(outcome.0, posted, outcome.1)
  }

  /** The rest of `provision_hosts`, with the rollback deleting every server
      by id. */
  function Finish(s: Stage, deletes: seq<DeleteReply>): Run
    requires s.Settled? ==> |s.records| == |deletes|
  {
    FinishWith(s, if s.Settled? then RollbackTargets(s.records) else [], if s.Settled? then deletes else [])
  }

  /** The rest of `provision_hosts` exactly as written: the rollback passes
      the raw server dicts to `delete_hosts`. */
  function FinishAsWritten(s: Stage, deletes: seq<DeleteReply>): Run
    requires s.Settled? ==> |s.records| == |deletes|
  {
    FinishWith(s, if s.Settled? then RollbackTargetsAsWritten(s.records) else [], if s.Settled? then deletes else [])
  }

  /** `provision_hosts`, with the rollback deleting every server by id. */
  function ProvisionHosts(cfg: Config, c: Catalog, hosts: seq<Dict>, creates: seq<CreateReply>,
                          polls: seq<seq<PollReply>>, deletes: seq<DeleteReply>): (r: Run)
    requires Oracles(cfg, hosts, creates, polls, deletes)
    ensures r.result.Success? <==>
      Launch(cfg, c, hosts, creates, polls).Settled? && ErrorRecords(Launch(cfg, c, hosts, creates, polls).records) == []
    ensures r.result.Success? ==>
      r.deleted == [] && r.result.value == ToHosts(Launch(cfg, c, hosts, creates, polls).records)
    ensures r.deleted == [] || (Launch(cfg, c, hosts, creates, polls).Settled?
                                && r.deleted == Ids(Launch(cfg, c, hosts, creates, polls).records))
  {
    var s := Launch(cfg, c, hosts, creates, polls);
    if s.Settled? then
      RollbackIssuesEveryId(s.records);
      Finish(s, deletes)
    else
      Finish(s, deletes)
  }

  /** `provision_hosts` exactly as written. */
  function ProvisionHostsAsWritten(cfg: Config, c: Catalog, hosts: seq<Dict>, creates: seq<CreateReply>,
                                   polls: seq<seq<PollReply>>, deletes: seq<DeleteReply>): (r: Run)
    requires Oracles(cfg, hosts, creates, polls, deletes)
    ensures r.deleted == []
  {
    var s := Launch(cfg, c, hosts, creates, polls);
    if s.Settled? then
      RollbackAsWrittenDeletesNothing(s.posted, s.records, deletes);
      FinishAsWritten(s, deletes)
    else
      FinishAsWritten(s, deletes)
  }

  // ---------------------------------------------------------------------
  // Properties of a run.

  /** A batch gets past polling exactly when it validates, is admitted,
      every create call returns an id and every poll ends in a snapshot. The
      payloads and snapshots then line up with the requirements. */
  lemma LaunchSettled(cfg: Config, c: Catalog, hosts: seq<Dict>, creates: seq<CreateReply>,
                      polls: seq<seq<PollReply>>)
    requires |creates| == |hosts| && |polls| == |hosts|
    ensures Launch(cfg, c, hosts, creates, polls).Settled? <==>
      && ValidateHosts(c, hosts).Success?
      && CanProvision(c, hosts) == Success(true)
      && (forall i :: 0 <= i < |creates| ==> creates[i].Created?)
      && (forall i :: 0 <= i < |creates| ==>
            creates[i].Created? ==> PollOutcome(creates[i].id, Take(polls[i], PollBudget(cfg, |hosts|))).Success?)
    ensures Launch(cfg, c, hosts, creates, polls).Settled? ==>
      forall i :: 0 <= i < |hosts| ==>
        && creates[i].Created?
        && Launch(cfg, c, hosts, creates, polls).posted[i] == BuildPayload(c, hosts[i]).value
        && Success(Launch(cfg, c, hosts, creates, polls).records[i])
             == PollOutcome(creates[i].id, Take(polls[i], PollBudget(cfg, |hosts|)))
  {
    if ValidateHosts(c, hosts).Success? && CanProvision(c, hosts) == Success(true) {
      ValidatedPayloads(c, hosts);
      DispatchSettled(PollBudget(cfg, |hosts|), Payloads(c, hosts).value, creates, polls);
    }
  }

  /** Past admission, the batch settles exactly when every create call
      returns an id and every poll ends in a snapshot; snapshot `i` is the
      outcome of polling server `i`. */
  lemma DispatchSettled(budget: nat, posted: seq<Dict>, creates: seq<CreateReply>, polls: seq<seq<PollReply>>)
    requires |creates| == |polls|
    ensures Dispatch(budget, posted, creates, polls).Settled? <==>
      && (forall i :: 0 <= i < |creates| ==> creates[i].Created?)
      && (forall i :: 0 <= i < |creates| ==>
            creates[i].Created? ==> PollOutcome(creates[i].id, Take(polls[i], budget)).Success?)
    ensures Dispatch(budget, posted, creates, polls).Settled? ==>
      forall i :: 0 <= i < |creates| ==>
        && creates[i].Created?
        && Success(Dispatch(budget, posted, creates, polls).records[i]) == PollOutcome(creates[i].id, Take(polls[i], budget))
  {
    var created := CreateAll(creates);
    if created.Success? {
      var ids := created.value;
      assert forall i :: 0 <= i < |creates| ==> creates[i].id == ids[i];
    }
  }

  /** Validated requirements all have payloads, one per requirement. */
  lemma ValidatedPayloads(c: Catalog, hosts: seq<Dict>)
    requires ValidateHosts(c, hosts).Success?
    ensures Payloads(c, hosts).Success?
    ensures |Payloads(c, hosts).value| == |hosts|
    ensures forall i :: 0 <= i < |hosts| ==> Payloads(c, hosts).value[i] == BuildPayload(c, hosts[i]).value
  {
    forall i | 0 <= i < |hosts| ensures BuildPayload(c, hosts[i]).Success? {
      assert ValidateHost(c, hosts[i]).Success?;
    }
  }

  /** The snapshots the polls of a batch end in: the poll of created server
      `i` over its checks yields `records[i]`. */
  ghost predicate PolledTo(cfg: Config, hosts: seq<Dict>, creates: seq<CreateReply>,
                           polls: seq<seq<PollReply>>, records: seq<ServerRecord>)
  {
    && |creates| == |hosts| && |polls| == |hosts| && |records| == |hosts|
    && forall i :: 0 <= i < |hosts| ==>
         creates[i].Created? && PollOutcome(creates[i].id, Take(polls[i], PollBudget(cfg, |hosts|))) == Success(records[i])
  }

  /** A validated, admitted batch whose creates all return ids settles on
      the snapshots its polls end in, with the payloads built in request
      order. */
  lemma LaunchSettlesTo(cfg: Config, c: Catalog, hosts: seq<Dict>, creates: seq<CreateReply>,
                        polls: seq<seq<PollReply>>, records: seq<ServerRecord>)
    requires ValidateHosts(c, hosts).Success? && CanProvision(c, hosts) == Success(true)
    requires PolledTo(cfg, hosts, creates, polls, records)
    ensures Payloads(c, hosts).Success?
    ensures Launch(cfg, c, hosts, creates, polls) == Settled(Payloads(c, hosts).value, records)
  {
    LaunchSettled(cfg, c, hosts, creates, polls);
    ValidatedPayloads(c, hosts);
    var s := Launch(cfg, c, hosts, creates, polls);
    assert s.posted == Payloads(c, hosts).value;
    assert s.records == records by {
      forall i | 0 <= i < |hosts| ensures s.records[i] == records[i] {
        assert Success(s.records[i]) == PollOutcome(creates[i].id, Take(polls[i], PollBudget(cfg, |hosts|)));
      }
    }
  }

  /** End to end: a validated, admitted batch whose creates all return ids
      and whose polls end in snapshots none of which is "ERROR" returns one
      Host per snapshot, in request order, and deletes nothing. */
  lemma ProvisionSucceeds(cfg: Config, c: Catalog, hosts: seq<Dict>, creates: seq<CreateReply>,
                          polls: seq<seq<PollReply>>, deletes: seq<DeleteReply>, records: seq<ServerRecord>)
    requires Oracles(cfg, hosts, creates, polls, deletes)
    requires ValidateHosts(c, hosts).Success? && CanProvision(c, hosts) == Success(true)
    requires PolledTo(cfg, hosts, creates, polls, records)
    requires forall i :: 0 <= i < |records| ==> records[i].status != "ERROR"
    ensures ProvisionHosts(cfg, c, hosts, creates, polls, deletes).result == Success(ToHosts(records))
    ensures ProvisionHosts(cfg, c, hosts, creates, polls, deletes).deleted == []
  {
    LaunchSettlesTo(cfg, c, hosts, creates, polls, records);
    SettledSuccess(Payloads(c, hosts).value, records, deletes);
  }

  /** End to end: when one of the snapshots a settled batch ends in is
      "ERROR", a delete is issued for every created server, in request
      order, and the run fails; with no delete rejected it fails with
      ProvisioningError carrying exactly the "ERROR" snapshots. */
  lemma ProvisionRollsBack(cfg: Config, c: Catalog, hosts: seq<Dict>, creates: seq<CreateReply>,
                           polls: seq<seq<PollReply>>, deletes: seq<DeleteReply>, records: seq<ServerRecord>, k: nat)
    requires Oracles(cfg, hosts, creates, polls, deletes)
    requires ValidateHosts(c, hosts).Success? && CanProvision(c, hosts) == Success(true)
    requires PolledTo(cfg, hosts, creates, polls, records)
    requires k < |records| && records[k].status == "ERROR"
    ensures ProvisionHosts(cfg, c, hosts, creates, polls, deletes).result.Failure?
    ensures ProvisionHosts(cfg, c, hosts, creates, polls, deletes).deleted
            == Ids(records)
    ensures (forall i :: 0 <= i < |deletes| ==> deletes[i] != DeleteRejected)
            ==> ProvisionHosts(cfg, c, hosts, creates, polls, deletes).result
                == Failure(ProvisioningError(ErrorRecords(records)))
  {
    var run := ProvisionHosts(cfg, c, hosts, creates, polls, deletes);
    assert Payloads(c, hosts).Success? by {
      ValidatedPayloads(c, hosts);
    }
    var fin := Finish(Settled(Payloads(c, hosts).value, records), deletes);
    assert run == fin by {
      LaunchSettlesTo(cfg, c, hosts, creates, polls, records);
    }
    assert fin.result.Failure? && fin.deleted == Ids(records) by {
      RollbackDeletesEveryServer(Payloads(c, hosts).value, records, deletes, k);
    }
    assert (forall i :: 0 <= i < |deletes| ==> deletes[i] != DeleteRejected)
           ==> fin.result == Failure(ProvisioningError(ErrorRecords(records))) by {
      if forall i :: 0 <= i < |deletes| ==> deletes[i] != DeleteRejected {
        RollbackRaisesProvisioningError(Payloads(c, hosts).value, records, deletes, k);
      }
    }
  }

  /** End to end, as written: the same batch deletes nothing and fails with
      AttributeError instead of ProvisioningError, leaving every created
      server, the "ERROR" ones included, running. */
  lemma ProvisionAsWrittenLeaksServers(cfg: Config, c: Catalog, hosts: seq<Dict>, creates: seq<CreateReply>,
                                       polls: seq<seq<PollReply>>, deletes: seq<DeleteReply>, records: seq<ServerRecord>, k: nat)
    requires Oracles(cfg, hosts, creates, polls, deletes)
    requires ValidateHosts(c, hosts).Success? && CanProvision(c, hosts) == Success(true)
    requires PolledTo(cfg, hosts, creates, polls, records)
    requires k < |records| && records[k].status == "ERROR"
    ensures ProvisionHostsAsWritten(cfg, c, hosts, creates, polls, deletes).deleted == []
    ensures ProvisionHostsAsWritten(cfg, c, hosts, creates, polls, deletes).result
            == Failure(RuntimeFault(MissingAttribute("_id")))
  {
    LaunchSettlesTo(cfg, c, hosts, creates, polls, records);
    RollbackAsWrittenFails(Payloads(c, hosts).value, records, deletes, k);
  }

  /** A batch that stops before polling ends is the run: it deletes
      nothing, and it posts nothing when validation or admission stopped it. */
  lemma StoppedRun(cfg: Config, c: Catalog, hosts: seq<Dict>, creates: seq<CreateReply>,
                   polls: seq<seq<PollReply>>, deletes: seq<DeleteReply>)
    requires Oracles(cfg, hosts, creates, polls, deletes)
    requires Launch(cfg, c, hosts, creates, polls).Stopped?
    ensures var r := ProvisionHosts(cfg, c, hosts, creates, polls, deletes);
      && r == Launch(cfg, c, hosts, creates, polls).run
      && r.result.Failure? && r.deleted == []
      && (ValidateHosts(c, hosts).Failure? ==> r == Run(Failure(ValidateHosts(c, hosts).error), [], []))
      && ((ValidateHosts(c, hosts).Success? && CanProvision(c, hosts) == Success(false))
            ==> r == Run(Failure(ValidationError(NotEnoughResources)), [], []))
      && (r.posted != [] ==> ValidateHosts(c, hosts).Success? && CanProvision(c, hosts) == Success(true))
  {
  }

  /** Once every server is polled, the run succeeds exactly when no final
      snapshot has the raw status "ERROR"; it then returns one Host per
      snapshot, in request order, none of them in status Error, and deletes
      nothing. */
  lemma SettledSuccess(posted: seq<Dict>, records: seq<ServerRecord>, deletes: seq<DeleteReply>)
    requires |records| == |deletes|
    ensures var r := Finish(Settled(posted, records), deletes);
      r.result.Success? <==> forall i :: 0 <= i < |records| ==> records[i].status != "ERROR"
    ensures var r := Finish(Settled(posted, records), deletes);
      r.result.Success? ==>
        && r.deleted == [] && r.posted == posted
        && r.result.value == ToHosts(records)
        && forall i :: 0 <= i < |records| ==> r.result.value[i].status != Error
  {
  }

  /** A snapshot still in BUILD when the checks ran out is not an error: if
      no snapshot is "ERROR", it becomes a Host with status Provisioning and
      nothing is deleted. */
  lemma TimedOutBuildIsProvisioning(posted: seq<Dict>, records: seq<ServerRecord>, deletes: seq<DeleteReply>, i: nat)
    requires |records| == |deletes|
    requires forall j :: 0 <= j < |records| ==> records[j].status != "ERROR"
    requires i < |records| && records[i].status == "BUILD"
    ensures var r := Finish(Settled(posted, records), deletes);
      r.result.Success? && r.deleted == [] && r.result.value[i].status == Provisioning
  {
    SettledSuccess(posted, records, deletes);
  }

  /** The rollback: once any snapshot is "ERROR", a delete is issued for
      every created server, the ACTIVE ones included, in request order; the
      run fails, with the remote error when a delete call is rejected. */
  lemma RollbackDeletesEveryServer(posted: seq<Dict>, records: seq<ServerRecord>, deletes: seq<DeleteReply>, k: nat)
    requires |records| == |deletes|
    requires k < |records| && records[k].status == "ERROR"
    ensures Finish(Settled(posted, records), deletes).result.Failure?
    ensures Finish(Settled(posted, records), deletes).posted == posted
    ensures Finish(Settled(posted, records), deletes).deleted == Ids(records)
    ensures (exists i :: 0 <= i < |deletes| && deletes[i] == DeleteRejected)
            ==> Finish(Settled(posted, records), deletes).result.error.RemoteError?
  {
    RollbackIssuesEveryId(records);
    RollbackDeleteOutcome(records, deletes);
  }

  /** When every delete call of the rollback goes through (not-found is
      swallowed), the run fails with ProvisioningError carrying exactly the
      "ERROR" snapshots, in request order. */
  lemma RollbackRaisesProvisioningError(posted: seq<Dict>, records: seq<ServerRecord>, deletes: seq<DeleteReply>, k: nat)
    requires |records| == |deletes|
    requires k < |records| && records[k].status == "ERROR"
    requires forall i :: 0 <= i < |deletes| ==> deletes[i] != DeleteRejected
    ensures Finish(Settled(posted, records), deletes).result == Failure(ProvisioningError(ErrorRecords(records)))
  {
    RollbackDeleteOutcome(records, deletes);
  }

  /** The rollback targets carry every server's id, so a delete is issued
      for each of them. */
  lemma RollbackIssuesEveryId(records: seq<ServerRecord>)
    ensures IssuedDeletes(RollbackTargets(records)) == Ids(records)
  {
    var targets := RollbackTargets(records);
    HostTargetsIssueAll(targets);
    assert forall j :: 0 <= j < |targets| ==> targets[j].host.id == records[j].id;
  }

  /** Deleting the rollback targets fails exactly when some delete call is
      rejected, and then with that call's remote error. */
  lemma RollbackDeleteOutcome(records: seq<ServerRecord>, deletes: seq<DeleteReply>)
    requires |records| == |deletes|
    ensures var r := DeleteHosts(RollbackTargets(records), deletes);
      && (r.Success? <==> forall i :: 0 <= i < |deletes| ==> deletes[i] != DeleteRejected)
      && (r.Failure? ==> r.error.RemoteError?)
  {
    var targets := RollbackTargets(records);
    assert forall j :: 0 <= j < |targets| ==> IdAttribute(targets[j]) == Some(records[j].id);
  }

  /** As written, the rollback never deletes anything: `delete_host` reads
      `_id` from a raw server dict, so the join raises AttributeError before
      any delete call, and ProvisioningError is never raised. */
  lemma RollbackAsWrittenFails(posted: seq<Dict>, records: seq<ServerRecord>, deletes: seq<DeleteReply>, k: nat)
    requires |records| == |deletes|
    requires k < |records| && records[k].status == "ERROR"
    ensures FinishAsWritten(Settled(posted, records), deletes).deleted == []
    ensures FinishAsWritten(Settled(posted, records), deletes).result == Failure(RuntimeFault(MissingAttribute("_id")))
  {
    RollbackAsWrittenDeletesNothing(posted, records, deletes);
  }

  /** As written, no settled batch ever has a server deleted, whatever its
      snapshots: none of the raw dicts handed to `delete_hosts` has an `_id`. */
  lemma RollbackAsWrittenDeletesNothing(posted: seq<Dict>, records: seq<ServerRecord>, deletes: seq<DeleteReply>)
    requires |records| == |deletes|
    ensures FinishAsWritten(Settled(posted, records), deletes).deleted == []
  {
    RawTargetsIssueNothing(RollbackTargetsAsWritten(records));
  }

  lemma {:induction false} RawTargetsIssueNothing(targets: seq<DeleteTarget>)
    requires forall i :: 0 <= i < |targets| ==> targets[i].RawServer?
    ensures IssuedDeletes(targets) == []
    decreases |targets|
  {
    if targets != [] {
      RawTargetsIssueNothing(targets[1..]);
    }
  }

  /** Away from the rollback, the run as written and the corrected run agree. */
  lemma AsWrittenAgreesWithoutRollback(s: Stage, deletes: seq<DeleteReply>)
    requires s.Settled? ==> |s.records| == |deletes|
    requires s.Settled? ==> forall i :: 0 <= i < |s.records| ==> s.records[i].status != "ERROR"
    ensures FinishAsWritten(s, deletes) == Finish(s, deletes)
  {
    if s.Settled? {
      SettledSuccess(s.posted, s.records, deletes);
    }
  }
}
