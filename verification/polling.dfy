/** The per-server poll loop of `wait_till_provisioned` and the batch poll
    timing of `get_poll_sleep_times`. Time is counted in hundredths of a
    second from the moment the loop starts; remote calls are taken to be
    instantaneous, so the k-th status check happens after the initial sleep
    plus k poll intervals. */
module Polling {
  import opened Wrappers
  import opened Hosts
  import opened Errors

  /** Provider settings: the timeout in minutes, the sleeps in seconds. */
  datatype Config = Config(timeoutMinutes: nat, pollSleepInitial: nat, pollSleep: nat)

  /** The values the provider is constructed with. */
  const DefaultConfig: Config := Config(60, 15, 7)

  /** A poll schedule: initial sleep, interval and deadline, in hundredths of
      a second from the start of the loop. */
  datatype Timing = Timing(initial: nat, interval: nat, deadline: nat)

  /** What one status check returns: the server, the API's not-found, or
      any other failure of the call, which nothing in the loop catches. */
  datatype PollReply = Found(server: ServerRecord) | NotFound | PollRejected

  /** `done_states`. */
  const DoneStates: seq<string> := ["ACTIVE", "ERROR"]

  /** `get_poll_sleep_times` for a batch of `count` hosts, in hundredths of a
      second: 0.65 s more initial sleep and 0.22 s more interval per host. */
  function PollSleepTimes(cfg: Config, count: nat): (t: (nat, nat))
    ensures t.0 >= 100 * cfg.pollSleepInitial && t.1 >= 100 * cfg.pollSleep
    ensures count > 0 ==> t.0 > 100 * cfg.pollSleepInitial && t.1 > 100 * cfg.pollSleep
  {
    (100 * cfg.pollSleepInitial + 65 * count, 100 * cfg.pollSleep + 22 * count)
  }

  /** Larger batches wait at least as long before the first check and
      between checks. */
  lemma SleepTimesMonotone(cfg: Config, n1: nat, n2: nat)
    requires n1 <= n2
    ensures PollSleepTimes(cfg, n1).0 <= PollSleepTimes(cfg, n2).0
    ensures PollSleepTimes(cfg, n1).1 <= PollSleepTimes(cfg, n2).1
  {
  }

  /** The start of `wait_till_provisioned`: falsy arguments fall back to the
      provider's settings, and the deadline is `timeout` minutes after start. */
  function EffectiveTiming(cfg: Config, timeout: nat, pollSleep: nat, pollSleepInitial: nat): (t: Timing)
    ensures t.interval > 0 <==> pollSleep > 0 || cfg.pollSleep > 0
    ensures t.deadline == 6000 * (if timeout > 0 then timeout else cfg.timeoutMinutes)
    ensures pollSleepInitial > 0 ==> t.initial == pollSleepInitial
    ensures pollSleep > 0 ==> t.interval == pollSleep
    ensures pollSleepInitial == 0 ==> t.initial == 100 * cfg.pollSleepInitial
    ensures pollSleep == 0 ==> t.interval == 100 * cfg.pollSleep
  {
    Timing(
      if pollSleepInitial == 0 then 100 * cfg.pollSleepInitial else pollSleepInitial,
      if pollSleep == 0 then 100 * cfg.pollSleep else pollSleep,
      6000 * (if timeout == 0 then cfg.timeoutMinutes else timeout))
  }

  /** The schedule `provision_hosts` gives every server of a batch of
      `count`: the batch sleep times and the provider's timeout. */
  function BatchTiming(cfg: Config, count: nat): (t: Timing)
    ensures t.interval > 0 <==> cfg.pollSleep > 0 || count > 0
  {
    var sleeps := PollSleepTimes(cfg, count);
    EffectiveTiming(cfg, 0, sleeps.1, sleeps.0)
  }

  /** With the provider's defaults, a batch of `n` waits 15 + 0.65 n s
      before the first check, 7 + 0.22 n s between checks, and stops
      checking after 60 minutes. */
  lemma DefaultBatchTiming(n: nat)
    ensures BatchTiming(DefaultConfig, n) == Timing(1500 + 65 * n, 700 + 22 * n, 360000)
  {
  }

  /** The instants of the status checks from `now` on: one every `interval`
      while the deadline has not been reached. */
  function CheckTimes(now: nat, interval: nat, deadline: nat): seq<nat>
    requires interval > 0
    decreases deadline - now
  {
    if now >= deadline then [] else [now] + CheckTimes(now + interval, interval, deadline)
  }

  /** The checks are exactly the instants `now + k * interval` that fall
      before the deadline: each listed one does, the next one would not. */
  lemma {:induction false} CheckTimesSpaced(now: nat, interval: nat, deadline: nat)
    requires interval > 0
    ensures var ts := CheckTimes(now, interval, deadline);
      && (forall k :: 0 <= k < |ts| ==> ts[k] == now + k * interval && ts[k] < deadline)
      && now + |ts| * interval >= deadline
    decreases deadline - now
  {
    if now < deadline {
      var rest := CheckTimes(now + interval, interval, deadline);
      CheckTimesSpaced(now + interval, interval, deadline);
      var ts := CheckTimes(now, interval, deadline);
      forall k | 0 <= k < |ts| ensures ts[k] == now + k * interval && ts[k] < deadline {
        if k > 0 {
          assert ts[k] == rest[k - 1];
          assert now + interval + (k - 1) * interval == now + k * interval;
        }
      }
      assert now + interval + |rest| * interval == now + |ts| * interval;
    }
  }

  /** The status checks a schedule allows. */
  function Checks(t: Timing): seq<nat>
    requires t.interval > 0
  {
    CheckTimes(t.initial, t.interval, t.deadline)
  }

  /** A later start and a longer interval never allow more checks. */
  lemma {:induction false} CheckTimesAntitone(now1: nat, interval1: nat, now2: nat, interval2: nat, deadline: nat)
    requires 0 < interval1 <= interval2 && now1 <= now2
    ensures |CheckTimes(now2, interval2, deadline)| <= |CheckTimes(now1, interval1, deadline)|
    decreases deadline - now2
  {
    if now2 < deadline {
      CheckTimesAntitone(now1 + interval1, interval1, now2 + interval2, interval2, deadline);
    }
  }

  /** A larger batch is checked at most as often per server before the
      deadline as a smaller one. */
  lemma FewerChecksForLargerBatches(cfg: Config, n1: nat, n2: nat)
    requires (cfg.pollSleep > 0 || n1 > 0) && n1 <= n2
    ensures |Checks(BatchTiming(cfg, n2))| <= |Checks(BatchTiming(cfg, n1))|
  {
    var t1 := BatchTiming(cfg, n1);
    var t2 := BatchTiming(cfg, n2);
    CheckTimesAntitone(t1.initial, t1.interval, t2.initial, t2.interval, t1.deadline);
  }

  /** A reply after which the loop sleeps and checks again. */
  predicate Continues(reply: PollReply) {
    reply.Found? && reply.server.status !in DoneStates
  }

  /** The loop over the replies of successive checks; `last` is the most
      recent snapshot (None while `server` is still unbound). */
  function Scan(uuid: string, replies: seq<PollReply>, last: Option<ServerRecord>): Result<ServerRecord, Error>
    decreases |replies|
  {
    if replies == [] then
      (if last.Some? then Success(last.value) else Failure(RuntimeFault(UnboundLocal("server"))))
    else
      match replies[0]
      case NotFound => Failure(ServerNotFoundError(uuid))
      case PollRejected => Failure(RemoteError(PollCall(uuid)))
      case Found(s) =>
        if s.status in DoneStates then Success(s)
        else Scan(uuid, replies[1..], Some(s))
  }

  /** What the loop yields: the first not-found raises ServerNotFoundError,
      the first other failed check propagates its remote error, and the first
      snapshot in a done state is returned, whichever comes first; when every check finds the server still busy, the last snapshot
      is returned (with no check at all, `server` is unbound). */
  lemma {:induction false} ScanOutcome(uuid: string, replies: seq<PollReply>, last: Option<ServerRecord>)
    ensures (forall j :: 0 <= j < |replies| ==> Continues(replies[j])) ==>
      Scan(uuid, replies, last)
        == (if |replies| > 0 then Success(replies[|replies| - 1].server)
            else if last.Some? then Success(last.value)
            else Failure(RuntimeFault(UnboundLocal("server"))))
    ensures forall k :: 0 <= k < |replies| && !Continues(replies[k])
                        && (forall j :: 0 <= j < k ==> Continues(replies[j])) ==>
      Scan(uuid, replies, last)
        == (if replies[k].NotFound? then Failure(ServerNotFoundError(uuid))
            else if replies[k].PollRejected? then Failure(RemoteError(PollCall(uuid)))
            else Success(replies[k].server))
    decreases |replies|
  {
    if replies != [] {
      var rest := replies[1..];
      assert forall j :: 1 <= j < |replies| ==> replies[j] == rest[j - 1];
      if Continues(replies[0]) {
        ScanOutcome(uuid, rest, Some(replies[0].server));
        if forall j :: 0 <= j < |replies| ==> Continues(replies[j]) {
          if |rest| == 0 {
            assert replies == [replies[0]];
          } else {
            assert forall j :: 0 <= j < |rest| ==> Continues(rest[j]);
          }
        }
        forall k | 0 <= k < |replies| && !Continues(replies[k]) && (forall j :: 0 <= j < k ==> Continues(replies[j]))
          ensures Scan(uuid, replies, last)
                  == (if replies[k].NotFound? then Failure(ServerNotFoundError(uuid))
                      else if replies[k].PollRejected? then Failure(RemoteError(PollCall(uuid)))
                      else Success(replies[k].server))
        {
          assert k > 0 && rest[k - 1] == replies[k];
          assert forall j :: 0 <= j < k - 1 ==> Continues(rest[j]) by {
            forall j | 0 <= j < k - 1 ensures Continues(rest[j]) {
              assert rest[j] == replies[j + 1];
            }
          }
        }
      }
    }
  }

  /** The outcome of polling one server over the replies of its checks. */
  function PollOutcome(uuid: string, replies: seq<PollReply>): Result<ServerRecord, Error> {
    Scan(uuid, replies, None)
  }

  /** Every successful outcome is a snapshot the server actually reported,
      and one outside the done states only when no check found the server
      done. */
  lemma PollOutcomeReported(uuid: string, replies: seq<PollReply>)
    requires PollOutcome(uuid, replies).Success?
    ensures exists k :: 0 <= k < |replies| && replies[k] == Found(PollOutcome(uuid, replies).value)
    ensures PollOutcome(uuid, replies).value.status !in DoneStates ==>
      forall j :: 0 <= j < |replies| ==> Continues(replies[j])
  {
    ScanOutcome(uuid, replies, None);
    var k := 0;
    while k < |replies| && Continues(replies[k])
      invariant k <= |replies|
      invariant forall j :: 0 <= j < k ==> Continues(replies[j])
    {
      k := k + 1;
    }
    if k == |replies| {
      assert replies[|replies| - 1] == Found(PollOutcome(uuid, replies).value);
    }
  }

  /** One turn of the loop. */
  lemma ScanStep(uuid: string, replies: seq<PollReply>, last: Option<ServerRecord>)
    requires replies != []
    ensures replies[0].NotFound? ==> Scan(uuid, replies, last) == Failure(ServerNotFoundError(uuid))
    ensures replies[0].PollRejected? ==> Scan(uuid, replies, last) == Failure(RemoteError(PollCall(uuid)))
    ensures replies[0].Found? && replies[0].server.status in DoneStates
            ==> Scan(uuid, replies, last) == Success(replies[0].server)
    ensures Continues(replies[0]) ==> Scan(uuid, replies, last) == Scan(uuid, replies[1..], Some(replies[0].server))
  {
  }

  /** `wait_till_provisioned`: sleep the initial delay, then check while the
      deadline has not passed, stopping at a done state or a failed check. It
      returns the outcome and the instants of the checks it made. */
  method WaitTillProvisioned(uuid: string, t: Timing, replies: seq<PollReply>)
    returns (r: Result<ServerRecord, Error>, checks: seq<nat>)
    requires t.interval > 0
    requires |replies| >= |Checks(t)|
    ensures r == PollOutcome(uuid, replies[..|Checks(t)|])
    ensures |checks| <= |Checks(t)| && checks == Checks(t)[..|checks|]
    ensures |checks| > 0 ==> checks[0] == t.initial
    ensures forall j :: 0 <= j < |checks| - 1 ==> Continues(replies[j])
    ensures |checks| < |Checks(t)| ==> |checks| > 0 && !Continues(replies[|checks| - 1])
  {
    ghost var all := Checks(t);
    ghost var n := |all|;
    var now := t.initial;
    var server: Option<ServerRecord> := None;
    var i := 0;
    checks := [];
    while now < t.deadline
      invariant i == |checks| <= n
      invariant all == checks + CheckTimes(now, t.interval, t.deadline)
      invariant PollOutcome(uuid, replies[..n]) == Scan(uuid, replies[i..n], server)
      invariant forall j :: 0 <= j < i ==> Continues(replies[j])
      decreases t.deadline - now
    {
      ghost var rest := replies[i..n];
      assert rest != [] && rest[0] == replies[i] && rest[1..] == replies[i + 1..n];
      ScanStep(uuid, rest, server);
      checks := checks + [now];
      var reply := replies[i];
      if reply.NotFound? {
        return Failure(ServerNotFoundError(uuid)), checks;
      }
      if reply.PollRejected? {
        return Failure(RemoteError(PollCall(uuid))), checks;
      }
      server := Some(reply.server);
      if reply.server.status in DoneStates {
        return Success(reply.server), checks;
      }
      now := now + t.interval;
      i := i + 1;
    }
    assert CheckTimes(now, t.interval, t.deadline) == [];
    assert replies[i..n] == [];
    r := if server.Some? then Success(server.value) else Failure(RuntimeFault(UnboundLocal("server")));
  }
}
