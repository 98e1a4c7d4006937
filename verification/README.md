# OpenStack provider core, modelled in Dafny

This project models the OpenStack provisioning provider of aiohabit
(`src/aiohabit/providers/openstack.py`). Its asyncio plumbing is dropped,
and every remote call is replaced by an oracle input. What is left is a set
of pure functions over maps, records and sequences:

- **Catalog** (`catalog.dfy`): the two indices per resource kind (by name,
  by id) that `set_flavors`, `set_images`, `set_networks` and
  `load_ip_availabilities` build, last write wins. Also the
  name-first / id-second lookup of `get_flavor` and its siblings, and the
  page accumulation of `load_images`.
- **Resolver** (`resolver.dfy`): `_translate_flavor`, `_translate_image`,
  `_translate_networks`, `validate_host(s)`, and the rewriting that
  `create_server` applies to its private copy of a requirement.
- **Admission** (`admission.dfy`): `get_host_requirements`, including the
  run-time faults it raises on a missing or unknown flavor. Also
  `can_provision`'s comparison of used plus required vCPUs and RAM against
  the account maxima.
- **Polling** (`polling.dfy`): the loop of `wait_till_provisioned` over a
  trace of status replies, with an explicit clock in hundredths of a
  second. Also `get_poll_sleep_times`.
- **Hosts** (`hosts.dfy`): `STATUS_MAP` and `to_host`.
- **Orchestrator** (`orchestrator.dfy`): `provision_hosts`,
  `delete_hosts`, `delete_host` and `delete_server`. The create, poll and
  delete replies are oracle sequences aligned with the requirements.
- **Shared modules**:
  - `wrappers.dfy` holds `Option`, `Result` and `MapAll`. `MapAll` is the
    in-order map that stands for the requirement loops and for each
    `asyncio.gather` join.
  - `json.dfy` holds Python values and their truthiness.
  - `errors.dfy` holds the exceptions the provider raises.

A requirement is a `map<string, Json>`. A field that is missing, `None`,
`""`, `0`, `False` or an empty collection counts as absent, because the
source tests these fields with Python truthiness.

Where the code and the usual description of the provider disagree, the
model follows the code:

- Only the raw status `"ERROR"` triggers the rollback
  (openstack.py:492). A server still in `BUILD` when its checks run out
  is not an error. It becomes a Host with status Provisioning.
- A `ServerNotFoundError` during polling, any other failed status call,
  or a failed create call propagates out of its join. None of them
  triggers a rollback.
- If a delete during the rollback fails with anything other than
  not-found, that error replaces the `ProvisioningError`.
- Hosts come back in request order, because `asyncio.gather` keeps input
  order.
- In the create payload, the caller's `networks` entries are kept
  verbatim. Only the entry for the `network` field is a fresh
  `{"uuid": id}`.
- `get_host_requirements` does not raise `ValidationError` on an
  unresolved flavor:
  - with neither flavor field truthy it raises UnboundLocalError;
  - with a flavor that does not resolve it raises TypeError (`None` is
    subscripted).

  Validation runs first, so inside `provision_hosts` this only matters
  for a requirement validation would already have rejected.

## Model

| member | source | states |
|---|---|---|
| Catalog.UpsertLastWriteWins | src/aiohabit/providers/openstack.py:114-130 | After indexing, a key is present iff it was before or some entry carries it; its value is the LAST entry with that key; keys no entry carries keep their old value |
| Catalog.UpsertAppend | src/aiohabit/providers/openstack.py:114-130 | Indexing a concatenation equals indexing the two parts one after the other |
| Catalog.LoadedLookupRoundTrip | src/aiohabit/providers/openstack.py:114-158 | With unique names and ids, looking an entry up by its name alone, or by its id alone, returns that entry |
| Catalog.Lookup | src/aiohabit/providers/openstack.py:132-158 | A name hit returns the name index's entry; only on a name miss does an id hit return the id index's entry; otherwise nothing is found |
| Catalog.NameBeatsRef | src/aiohabit/providers/openstack.py:132-137 | With unique names, a name and another entry's id given together return the named entry: the id index is consulted only on a name miss |
| Catalog.LookupMiss | src/aiohabit/providers/openstack.py:132-158 | A name and an id that no loaded entry carries find nothing |
| Catalog.LoadRoundTrip | tests/unit/test_openstack.py:195-238 | The catalog `init` leaves behind answers name and id lookups with the entry itself for flavors, images (all pages), networks and IP availabilities, and keeps the limits snapshot |
| Catalog.ConcatMembership | src/aiohabit/providers/openstack.py:183-195 | An image is in the accumulated list iff it is on some page |
| Catalog.LoadImagesPageByPage | src/aiohabit/providers/openstack.py:183-197 | Accumulating every page before indexing gives the same indices as indexing page after page |
| Catalog.LoadImagesComplete | src/aiohabit/providers/openstack.py:167-199 | On a fresh provider, an id is in the image id index iff it appears on some page |
| Resolver.Resolve | src/aiohabit/providers/openstack.py:217-229 | A truthy name field is looked up by name, then by id, and its outcome is final even on a miss; otherwise a truthy ref field is looked up by id only; otherwise nothing is found |
| Resolver.SpecOverridesRef | src/aiohabit/providers/openstack.py:221-224 | With a truthy name field, the ref field has no influence, and resolution misses exactly when the name is neither a known name nor a known id |
| Resolver.RefResolvesByIdOnly | src/aiohabit/providers/openstack.py:221-222 | A lone non-empty ref resolves exactly when it is a known id, and to that id's entry |
| Resolver.TranslateFlavor | src/aiohabit/providers/openstack.py:217-229 | Succeeds iff resolution finds a flavor, returning it; otherwise a ValidationError carrying both the `flavor` and `flavorRef` values |
| Resolver.TranslateImage | src/aiohabit/providers/openstack.py:231-242 | Same contract for `image`/`imageRef` |
| Resolver.ResolveUuid | src/aiohabit/providers/openstack.py:251-255 | A `networks` entry resolves iff it is a dict whose `uuid` is a known network id, to that network; an unresolved dict raises ValidationError naming the entry; a non-dict has no `get` |
| Resolver.TranslateNetworks | src/aiohabit/providers/openstack.py:244-266 | Succeeds iff every listed entry resolves and a truthy `network` resolves by name-then-id. The resolved networks line up with the entries, the `network` one last. The spec list is the caller's entries verbatim plus `{"uuid": id}` for `network`. When some listed entry fails, the failure is the first unresolved entry's error; only when every entry resolves can it be the `network` error |
| Resolver.ValidateHost | src/aiohabit/providers/openstack.py:268-274 | Succeeds (with True) iff flavor, image and networks all resolve; the flavor error wins over the image error, which wins over the network error |
| Resolver.ValidateHosts | src/aiohabit/providers/openstack.py:276-279 | Succeeds iff every requirement validates; otherwise fails with the first failing requirement's error |
| Resolver.Rewrite | src/aiohabit/providers/openstack.py:335-347 | One rewriting step: the ref key gets the value, the convenience key is deleted iff it held a truthy value, and every other key is untouched |
| Resolver.Payload | src/aiohabit/providers/openstack.py:332-347 | `flavorRef`, `imageRef` and `networks` hold the resolved values; `flavor`, `image` and `network` survive iff present and falsy; every other key passes through unchanged; nothing else is added |
| Resolver.BuildPayload | src/aiohabit/providers/openstack.py:332-345 | A payload is built iff the requirement validates, and it is the rewriting for the resolved flavor id, image id and network spec list; otherwise the validation error |
| Admission.HostRequirements | src/aiohabit/providers/openstack.py:281-289 | Succeeds iff the flavor resolves, with its RAM and vCPUs; neither flavor field truthy gives the unbound-local fault, an unresolved flavor the None-subscript fault |
| Admission.BatchSumsAppend | src/aiohabit/providers/openstack.py:301-304 | The batch vCPU and RAM totals are additive over concatenation |
| Admission.SumNeedsOfBatch | src/aiohabit/providers/openstack.py:298-304 | Summing the needs of every requirement, in order, gives the batch vCPU and RAM totals |
| Admission.Tally | src/aiohabit/providers/openstack.py:298-304 | The accumulation loop ends with the starting totals plus the batch totals iff the needs of every requirement can be computed, otherwise with the first failure |
| Admission.CanProvision | src/aiohabit/providers/openstack.py:291-318 | True iff used vCPUs plus the batch's vCPUs are within the vCPU maximum and used RAM plus the batch's RAM is within the RAM maximum (equality admitted); raises the first requirement fault otherwise |
| Admission.EmptyBatchAdmission | src/aiohabit/providers/openstack.py:298-318 | An empty batch adds nothing: it is admitted iff the recorded usage is within both maxima |
| Admission.AdmissionAfterValidation | src/aiohabit/providers/openstack.py:454-458 | A batch that passed validation never makes admission raise |
| Admission.AdmittedPrefix | src/aiohabit/providers/openstack.py:291-318 | Dropping a tail of non-negative needs from an admitted batch keeps it admitted |
| Polling.PollSleepTimes | src/aiohabit/providers/openstack.py:416-437 | The batch sleeps never fall below the provider's settings, and exceed them for a non-empty batch |
| Polling.SleepTimesMonotone | src/aiohabit/providers/openstack.py:429-435 | Both batch sleeps are non-decreasing in the batch size |
| Polling.DefaultBatchTiming | src/aiohabit/providers/openstack.py:73-75 | With the defaults, a batch of n waits 15 + 0.65 n s first, 7 + 0.22 n s between checks, for 60 minutes |
| Polling.BatchTiming | src/aiohabit/providers/openstack.py:429-437 | A batch's poll interval is positive iff the provider's `poll_sleep` is or the batch is non-empty |
| Polling.EffectiveTiming | src/aiohabit/providers/openstack.py:381-389 | Falsy arguments fall back to the provider settings; the deadline is the timeout in minutes after the start |
| Polling.CheckTimesSpaced | src/aiohabit/providers/openstack.py:393-404 | The checks happen at the first sleep plus k intervals, all before the deadline, and the next one would not be |
| Polling.CheckTimesAntitone | src/aiohabit/providers/openstack.py:395-404 | A later start and a longer interval never give more checks before the same deadline |
| Polling.FewerChecksForLargerBatches | src/aiohabit/providers/openstack.py:416-437 | A larger batch gets at most as many status checks per server as a smaller one |
| Polling.ScanOutcome | src/aiohabit/providers/openstack.py:395-414 | The loop's result: the first not-found raises ServerNotFoundError, the first other failed check propagates its remote error, the first ACTIVE/ERROR snapshot is returned, and if every check shows a busy server the last snapshot is returned (with no check, `server` is unbound) |
| Polling.ScanStep | src/aiohabit/providers/openstack.py:396-404 | One turn: not-found raises ServerNotFoundError, another failed call propagates, a done state stops, any other status continues with that snapshot as the latest |
| Polling.PollOutcomeReported | src/aiohabit/providers/openstack.py:395-414 | A successful outcome is a snapshot some check returned, and it is outside the done states only if no check saw a done state |
| Polling.WaitTillProvisioned | src/aiohabit/providers/openstack.py:363-414 | The loop's outcome is the scan over the replies of the checks the schedule allows; the checks made are a prefix of that schedule and the first is at the initial sleep; every check before the last found the server in a state that is not done, and the loop stops before the schedule runs out only at a done, not-found or rejected reply |
| Hosts.StatusOf | src/aiohabit/providers/openstack.py:43-50 | Each of ACTIVE, BUILD, DELETED, ERROR maps to its status and nothing else does; every other string maps to Other |
| Hosts.FlattenAddressesLayout | src/aiohabit/providers/openstack.py:524-525 | Interface j of network i's `addr` sits at position (interfaces of the earlier networks) + j, and the list holds exactly one entry per interface |
| Hosts.ToHostFaithful | src/aiohabit/providers/openstack.py:522-538 | The Host keeps the id, name, raw snapshot and fault, normalizes the status through STATUS_MAP (ACTIVE, BUILD, DELETED and ERROR each to their own status, anything else to Other) and has one address per interface |
| Wrappers.MapAll | src/aiohabit/providers/openstack.py:467-485 | The in-order join: succeeds iff every element does, results line up index by index, otherwise the first failing element's error |
| Orchestrator.DeleteServer | src/aiohabit/providers/openstack.py:352-361 | A delete succeeds unless the call is rejected; not-found is swallowed |
| Orchestrator.DeleteHost | src/aiohabit/providers/openstack.py:506-509 | A target without `_id` raises AttributeError; otherwise it returns True iff the delete of that id is not rejected |
| Orchestrator.DeleteHosts | src/aiohabit/providers/openstack.py:511-520 | The join over all targets: all True iff every deletion succeeds, otherwise one deletion's error |
| Orchestrator.DeleteHostsOfHosts | src/aiohabit/providers/openstack.py:511-520 | Deleting Host objects issues a delete for every host's id in order, and succeeds iff no delete call is rejected |
| Orchestrator.CreateAll | src/aiohabit/providers/openstack.py:467-471 | The create join succeeds iff every create returns an id, the ids in request order; otherwise the create error |
| Orchestrator.PollAll | src/aiohabit/providers/openstack.py:475-485 | The poll join succeeds iff every created server's poll ends in a snapshot, the snapshots in request order; otherwise it fails with the first failing poll's error (ServerNotFoundError or the status call's error) |
| Orchestrator.ErrorRecords | src/aiohabit/providers/openstack.py:492 | Holds exactly the snapshots whose raw status is "ERROR", and is empty iff none is |
| Orchestrator.ErrorRecordsAppend | src/aiohabit/providers/openstack.py:492 | The "ERROR" records of a concatenation are those of the first part followed by those of the second: request order and every occurrence are kept |
| Orchestrator.ErrorRecordsSingle | src/aiohabit/providers/openstack.py:492 | A single record is kept iff its raw status is "ERROR" |
| Orchestrator.Launch | src/aiohabit/providers/openstack.py:453-485 | Validation and admission failures stop the batch with no create and no delete; an inadmissible batch raises Not-enough-resources; any stop deletes nothing and fails |
| Orchestrator.Dispatch | src/aiohabit/providers/openstack.py:465-485 | Settled snapshots number one per create reply and keep the payloads; a stop fails, keeps the payloads posted and deletes nothing |
| Orchestrator.LaunchSettled | src/aiohabit/providers/openstack.py:453-485 | The batch reaches the decision iff it validates, is admitted, every create returns an id and every poll ends in a snapshot; payload i and snapshot i belong to requirement i |
| Orchestrator.DispatchSettled | src/aiohabit/providers/openstack.py:465-485 | Past admission, creates and polls settle iff every create returns an id and every poll ends in a snapshot, snapshot i being server i's |
| Orchestrator.ValidatedPayloads | src/aiohabit/providers/openstack.py:468-471 | A validated batch has a payload for every requirement, in order |
| Orchestrator.LaunchSettlesTo | src/aiohabit/providers/openstack.py:453-485 | An admitted batch whose creates and polls succeed settles on exactly the polled snapshots |
| Orchestrator.StoppedRun | src/aiohabit/providers/openstack.py:453-485 | A batch stopped before the decision fails, deletes nothing, and posts nothing when validation or admission stopped it |
| Orchestrator.SettledSuccess | src/aiohabit/providers/openstack.py:492-504 | The run succeeds iff no snapshot is "ERROR", and then returns one Host per snapshot in request order, none with status Error, and deletes nothing |
| Orchestrator.TimedOutBuildIsProvisioning | src/aiohabit/providers/openstack.py:492-504 | A snapshot still in BUILD is no error: it becomes a Host with status Provisioning and nothing is deleted |
| Orchestrator.RollbackDeletesEveryServer | src/aiohabit/providers/openstack.py:492-499 | With an "ERROR" snapshot, a delete is issued for every server, ACTIVE ones included, in request order; the run fails, with the remote error if a delete is rejected |
| Orchestrator.RollbackRaisesProvisioningError | src/aiohabit/providers/openstack.py:492-499 | When no rollback delete is rejected, the run fails with ProvisioningError carrying exactly the "ERROR" snapshots in order |
| Orchestrator.RollbackIssuesEveryId | src/aiohabit/providers/openstack.py:498 | The corrected rollback targets issue one delete per server id, in order |
| Orchestrator.RollbackDeleteOutcome | src/aiohabit/providers/openstack.py:498 | The corrected rollback deletion fails iff some delete is rejected, with a remote error |
| Orchestrator.Conclude | src/aiohabit/providers/openstack.py:492-504 | With no "ERROR" snapshot, the Hosts and no delete; otherwise the deletes issued for the targets, and the delete join's error or, if it succeeds, ProvisioningError of the "ERROR" snapshots |
| Orchestrator.ProvisionHosts | src/aiohabit/providers/openstack.py:439-504 | The run succeeds iff the batch settles with no "ERROR" snapshot, then with the Hosts of its snapshots and no delete; it deletes either nothing or every created server, in order |
| Orchestrator.ProvisionHostsAsWritten | src/aiohabit/providers/openstack.py:439-508 | As written, `provision_hosts` never has a server deleted, for any batch and any replies |
| Orchestrator.ProvisionSucceeds | src/aiohabit/providers/openstack.py:439-504 | End to end: validated, admitted, created, polled to no "ERROR" snapshot gives exactly one Host per snapshot in request order and no delete |
| Orchestrator.ProvisionRollsBack | src/aiohabit/providers/openstack.py:439-499 | End to end: one "ERROR" snapshot deletes every created server in request order and fails, with ProvisioningError of the "ERROR" snapshots when no delete is rejected |
| Orchestrator.RollbackAsWrittenFails | src/aiohabit/providers/openstack.py:498-508 | As written, the rollback issues no delete and fails with AttributeError on `_id` |
| Orchestrator.RawTargetsIssueNothing | src/aiohabit/providers/openstack.py:506-508 | Raw server dicts never reach a delete call |
| Orchestrator.RollbackAsWrittenDeletesNothing | src/aiohabit/providers/openstack.py:498-508 | As written, no settled batch has any server deleted, whatever its snapshots |
| Orchestrator.ProvisionAsWrittenLeaksServers | src/aiohabit/providers/openstack.py:439-508 | End to end as written: a batch with an "ERROR" snapshot deletes nothing and fails with AttributeError instead of ProvisioningError |
| Orchestrator.AsWrittenAgreesWithoutRollback | src/aiohabit/providers/openstack.py:492-504 | Without an "ERROR" snapshot, the code as written and the corrected code give the same run |

## Left out

- Concurrency: `asyncio.gather` and `asyncio.sleep` are modelled as
  sequential in-order maps and an explicit clock, because gather keeps
  input order.
- Client and session setup (`__init__`'s clients, `init`, authentication):
  `Catalog.Load` takes the fetched lists as inputs.
- Remote calls: the create, status, delete and list calls of Nova, Glance
  and Neutron are oracle inputs.
- The pagination cursor's URL parsing (`urlparse`, `parse_qs`): image pages
  are an abstract sequence of lists. The `image_names` filter is a
  parameter of the remote list call and is left out with it.
- `print`, `print_basic_info` and the duration measurements: they have no
  effect on results. `print_basic_info` is defined in the provider base
  class, which is not part of this model. Both models of `provision_hosts`
  assume it exists and does not raise for an ERROR record.
- Error message text: errors carry the values the messages are built from
  (the flavor and ref values, the network entry), not the formatted string.
- Python's TypeError for an unhashable list or dict used as a lookup key:
  such a value simply finds nothing in the model.
- Polling.WaitTillProvisioned: the remote status call takes no time on the
  model's clock, so the check times are exact multiples of the interval
  after the first sleep. The source's real-time drift is not modelled.
- Polling.PollSleepTimes: the float sleeps are integers in hundredths of a
  second. They equal the source's `0.65 * count` and `0.22 * count` sums
  up to binary floating-point rounding, which the model does not
  reproduce.
- Polling.EffectiveTiming: timeouts and sleeps are natural numbers.
  Negative or fractional settings, which Python would accept, are not
  modelled.
- Wrappers.MapAll: when several elements of one join fail, the model
  reports the error of the first in index order. `asyncio.gather` raises
  the first by completion time, which depends on scheduling.
- Orchestrator.DeleteHosts: the same first-in-index-order approximation
  applies to the error of a rollback with several rejected deletes.
- Deep copies: the model is pure, so the caller's requirement is never
  modified by construction. The deep copies of `create_server` and
  `_translate_networks` have no counterpart.
- `get_flavor` and its siblings test the found entry's truthiness. Catalog
  entries always carry a name and an id, so an entry is never falsy in the
  model.
- src/mrack/outputs/utils.py (DNS resolution retry loop and external-id
  lookup): wall-clock and socket I/O outside the provider.
- `translate_network_types` and network pools, exercised by the test file:
  no such method exists in the provider.
- The `PytestMultihostOutput` tests: that class is not part of this model.

## Findings

| source | as written | input that shows it | evidently intended | confidence | as-written member | corrected member |
|---|---|---|---|---|---|---|
| src/aiohabit/providers/openstack.py:498 | The rollback passes the raw server dicts from polling to `delete_hosts`. `delete_host` reads `host._id` (line 508), and a dict has no attributes. | A batch of two requirements. Both creates succeed; server A polls to ACTIVE and server B to ERROR. Each deletion task raises AttributeError before its delete call, so the join raises AttributeError: no server is deleted and ProvisioningError is never raised. | Delete every created server by id, then raise ProvisioningError with the ERROR records. | high; not executed | Orchestrator.ProvisionAsWrittenLeaksServers | Orchestrator.ProvisionRollsBack |
