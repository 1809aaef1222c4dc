# Group join flow — a Dafny model

This project models the group-join flow of the `handleGroup` service. A
*joining* group asks to merge into a *host* group that has an open
*broadcast* (an invitation stating `lf_pax`, the number of people the host
is still looking for). The flow works in four steps:

1. It reads the joining group's `no_of_pax` from the Grouping service and the
   host broadcast's `lf_pax` from the Broadcast service.
2. It classifies the join by `lf_pax - no_of_pax`.
3. It then does one of three things:
   - refuses the join;
   - deletes the broadcast and both groups, then creates one complete merged
     group;
   - rewrites the host group and lowers the broadcast's open places.
4. It reports one reply whose `code` is 200 or 500.

The handler's small wrappers put every upstream response through the same
guard: a 2xx response passes through, and anything else becomes a 500 report
that embeds it.

HTTP is abstracted away:

- The two services are two immutable stores:
  - a group table with an auto-increment counter (`Records.GroupTable`);
  - a map from host group id to broadcast.
- Each upstream call is `Upstream.Invoke`. It takes the status the network
  delivers from an oracle (`net(i)` is the status of the i-th call of a
  run). A call that addresses a missing row comes back 404. A call takes
  effect exactly when its status is 2xx.
- Every run logs its calls with the statuses the handler saw.
  `JoinProperties.JoinReplaysTrace` proves that the stores change by exactly
  the calls logged as 2xx, in order. So the flow has no hidden writes and no
  compensating ones.
- The handler's fixed ids (2 joining, 1 host) are parameters.
  `Scenarios` uses the fixed ids.

Modules:

- `Records`: rows and stores.
- `Http`: status guard.
- `Upstream`: calls, logs, replay.
- `Process`: the wrappers.
- `Capacity`: the classification.
- `JoinGroup`: the flow.
- `JoinProperties`: properties of one or two runs.
- `Session`: joins served one after another.
- `Scenarios`: concrete runs.

## Behaviour of the code worth knowing

- The perfect-match branch issues all three DELETE calls before it looks at
  any of their statuses. A failed deletion does not stop the later ones, and
  nothing already deleted is restored. If the broadcast deletion fails while
  both group deletions succeed, the broadcast is left behind without its host
  group (`Scenarios.FailedBroadcastDeletionLeavesItBehind`).
- The deletion-failure reply always carries the broadcast deletion's
  response, even when that deletion succeeded and a group deletion failed
  (`Scenarios.DeletionReportCarriesBroadcastResponse`).
- The size written for the merged group and for the grown host group is
  `lf_pax + no_of_pax_joining`. The host group's own `no_of_pax` is never
  read. As a result:
  - the sum of the host's size and its open places is not conserved
    (`Scenarios.PartialFitWritesOpenPlacesPlusJoiners`);
  - a host's size can go down (`Scenarios.PartialFitCanShrinkHost`).

  This is modelled as written. It is not listed as a finding, because the
  code gives no other sign of what the count was meant to be.
- A refused join and a failed read both reply with code 500. The code has no
  separate conflict or unavailable status.
- The success reply of a merge does not carry the new group's id.
- In the partial branch, a failed broadcast update leaves the host group
  already rewritten. The reply is 500, and there is no retry.
- A second join served after a partial fill reads the lowered broadcast
  (`JoinProperties.RetryReadsLoweredCapacity`). Two joins served one after the
  other cannot both succeed when their sizes together exceed the open places
  (`JoinProperties.SerialJoinsNeverOversubscribe`). Concurrent joins are not
  serialised by the code and are not modelled.
- The guard is idempotent on the reply code only. Guarding a failure twice
  nests the report one level deeper (`Http.GuardNestsFailures`).

## Model

| member | source | states |
|---|---|---|
| `Http.Guard` | handleGroup/handleGroup.py:47-56 | a 2xx upstream response is returned unchanged; any other becomes code 500 embedding the upstream response under the wrapper's key; success is preserved both ways |
| `Http.GuardIdempotentOnCode` | handleGroup/handleGroup.py:44-56 | guarding a guarded response gives the same code, and on 2xx the same response |
| `Http.GuardNestsFailures` | handleGroup/handleGroup.py:48-53 | guarding a failure twice differs from guarding it once: the second report embeds the first |
| `Upstream.Invoke` | handleGroup/handleGroup.py:125-151 | a call to a missing row comes back 404, otherwise with the network's status; a GET or a non-2xx call leaves both stores unchanged; a 2xx GET returns the stored row; a 2xx POST reports the counter's id |
| `Upstream.ReplayWithoutEffect` | handleGroup/handleGroup.py:126-168 | a log of reads and failed calls leaves both stores as they were |
| `Upstream.EffectPreservesWellformed` | handleGroup/handleGroup.py:187-233 | a call writing a group with at least one person or a broadcast with open places keeps the stores well-formed |
| `Process.ProcessCreateGroup` | handleGroup/handleGroup.py:44-56 | the POST succeeds exactly when the network's status is 2xx; then the group is stored under the counter's id and the counter advances; otherwise nothing changes and the reply is 500 |
| `Process.ProcessUpdateGrouping` | handleGroup/handleGroup.py:266-279 | the PATCH succeeds exactly when the host group exists and the status is 2xx, and then overwrites that group; otherwise nothing changes and the reply is 500 embedding the 404 or the failed status |
| `Process.ProcessUpdateBroadcast` | handleGroup/handleGroup.py:251-264 | the PATCH succeeds exactly when the broadcast exists and the status is 2xx, and then changes only its lf_pax; every other row is kept; otherwise nothing changes and the reply is 500 |
| `Process.ProcessCreateBroadcast` | handleGroup/handleGroup.py:87-100 | a 2xx response passes through; any other becomes a 500 report embedding it |
| `Process.AllBroadcasts` | handleGroup/handleGroup.py:105-118 | a 2xx response passes through; any other becomes a 500 report embedding it |
| `Capacity.Classify` | handleGroup/handleGroup.py:153-212 | reject iff the joining size exceeds lf_pax, perfect match iff equal, partial match iff smaller, with a positive remainder that adds back to lf_pax |
| `JoinGroup.DeleteParticipants` | handleGroup/handleGroup.py:172-178 | the broadcast, the joining group and the host group are deleted in that order whatever the earlier deletions returned; each status is 404 when its row is gone by then (the host row too, when the ids coincide and the joining deletion removed it), else the network's status |
| `JoinGroup.MergePerfect` | handleGroup/handleGroup.py:171-209 | the three deletions come first, with statuses as above; the merged group (size lf_pax + joining size, status 1) is created iff all three returned 2xx, with the network's status if 2xx and 500 otherwise; the reply is 200 iff that creation returned 2xx, else 500; a deletion failure reports the broadcast deletion's status |
| `JoinGroup.FillPartial` | handleGroup/handleGroup.py:212-247 | the host group is patched to size lf_pax + joining size with status 0, succeeding iff the host group exists and the network's status is 2xx; the broadcast is patched to lf_pax - joining size iff the group patch succeeded, succeeding iff the broadcast exists and the status is 2xx; the reply is 200 iff both patches succeeded, else 500 |
| `JoinGroup.Join` | handleGroup/handleGroup.py:121-247 | each read returns 404 when its row is missing and the network's status otherwise, so both reads succeed iff both rows exist and both statuses are 2xx; a failed read ends the run with 500, no write and no further call; a join larger than lf_pax is refused with 500 and the exceeds-limit message, only the two reads issued, and stores unchanged; equal sizes run the merge branch, smaller the partial branch; every reply is 200 or 500 |
| `JoinProperties.MergeReplaysTrace` | handleGroup/handleGroup.py:172-209 | the merge branch changes the stores exactly by its calls logged as 2xx |
| `JoinProperties.FillReplaysTrace` | handleGroup/handleGroup.py:213-247 | the partial branch changes the stores exactly by its calls logged as 2xx |
| `JoinProperties.JoinReplaysTrace` | handleGroup/handleGroup.py:121-247 | a join changes the stores exactly by its calls logged as 2xx, in issue order: no hidden writes, no rollback |
| `JoinProperties.JoinPreservesWellformed` | handleGroup/handleGroup.py:121-247 | a join keeps every group non-empty, every row id below the counter, and every open broadcast positive |
| `JoinProperties.MergeKeepsWellformed` | handleGroup/handleGroup.py:172-193 | the merge branch keeps well-formed stores well-formed |
| `JoinProperties.FillKeepsWellformed` | handleGroup/handleGroup.py:213-233 | the partial branch keeps well-formed stores well-formed, the broadcast's new lf_pax being positive |
| `JoinProperties.ReplayKeepsWellformed` | handleGroup/handleGroup.py:172-233 | replaying calls that write non-empty groups and positive broadcasts keeps the stores well-formed |
| `JoinProperties.MergeNeverRestores` | handleGroup/handleGroup.py:172-184 | a deletion that succeeded stays done whatever fails after it; a failed broadcast deletion leaves the broadcasts as they were |
| `JoinProperties.JoinMergesWhenAllSucceed` | handleGroup/handleGroup.py:121-209 | with distinct ids, both groups and the broadcast present, equal sizes and all six calls answered 2xx, the join replies 200 merged |
| `JoinProperties.JoinFillsWhenAllSucceed` | handleGroup/handleGroup.py:121-247 | with the joining group, the host group and its broadcast present, a joining size below lf_pax and all four calls answered 2xx, the join replies 200 partially filled |
| `JoinProperties.MergedReplacesBothGroups` | handleGroup/handleGroup.py:186-209 | on any stores, a merged join had equal sizes and distinct ids, removes both groups and the broadcast, and adds exactly the complete group of summed size under the next id |
| `JoinProperties.MergedLeavesNoBroadcast` | handleGroup/handleGroup.py:172-209 | after a merged join the host's broadcast no longer exists |
| `JoinProperties.PartiallyFilledUpdatesHost` | handleGroup/handleGroup.py:212-247 | a partially filled join rewrites only the host group (size lf_pax + joining size, status 0) and only the broadcast's lf_pax (lowered by the joining size, still positive) |
| `JoinProperties.SerialJoinsNeverOversubscribe` | handleGroup/handleGroup.py:139-247 | two joins on one host served in turn both reply 200 only if the first was a partial fill and the two sizes together fit the original lf_pax |
| `JoinProperties.RetryReadsLoweredCapacity` | handleGroup/handleGroup.py:139-168 | repeating a request after a partial fill reads the lowered lf_pax and is refused iff the size exceeds what is left |
| `Session.Serve` | handleGroup/handleGroup.py:121-247 | serving joins in turn gives one reply per request, each 200 or 500, changes the stores exactly by the logged 2xx calls, and keeps well-formed stores well-formed |
| `Session.ServeJoinsInTurn` | handleGroup/handleGroup.py:121-247 | the first reply and calls are those of the first join on the given stores, and the rest are those of serving the remaining requests on the stores it left, the network's statuses continuing where it stopped |
| `Scenarios.ExactFitMerges` | handleGroup/handleGroup.py:171-209 | five joining five open places merge into a new group of ten under id 3, and the old groups and the broadcast are gone |
| `Scenarios.PartialFitWritesOpenPlacesPlusJoiners` | handleGroup/handleGroup.py:212-233 | three joining five open places leave two open, and the host of three is written as eight |
| `Scenarios.PartialFitCanShrinkHost` | handleGroup/handleGroup.py:213-220 | a host of ten with two open places, joined by one, is written as three |
| `Scenarios.TooLargeIsRefused` | handleGroup/handleGroup.py:159-168 | seven joining five open places are refused with 500 naming the joining group, and nothing changes |
| `Scenarios.BroadcastReadFailureStops` | handleGroup/handleGroup.py:139-148 | a failed broadcast read ends the run after the two reads with 500 and unchanged stores |
| `Scenarios.FailedBroadcastDeletionLeavesItBehind` | handleGroup/handleGroup.py:172-184 | a failed broadcast deletion with both group deletions succeeding leaves the broadcast without its groups, with no merged group |
| `Scenarios.DeletionReportCarriesBroadcastResponse` | handleGroup/handleGroup.py:176-184 | when only the host deletion fails, the 500 reply carries the broadcast deletion's 200 response |

## Left out

- The Flask app, routes, CORS, JSON request parsing and the exception-to-500 handlers of `create_group` and `broadcast` (handleGroup/handleGroup.py:1-42, 60-84) are HTTP plumbing.
- The HTTP status returned beside each reply body is not modelled. Only the body's `code` field is modelled, together with which return produced it and its data. The creation-failure return sets no explicit status.
- `invoke_http` and the network are replaced by the status oracle. The source has no timeouts or retries, so none are modelled.
- The Grouping and Broadcast services are not part of this model. Their behaviour is assumed:
  - a missing row gives 404;
  - a 2xx status means the call was applied, and any other status means it was not;
  - a POST stores the group under the table's next auto-increment id.
- `processCreateBroadcast` and `getAllBroadcasts` are modelled as the guard applied to the service's response. The calls themselves are not modelled, because what the Broadcast service does on creation is not visible.
- Payloads whose `no_of_pax` or `lf_pax` is missing (a key error when the size is read) or not a number (a type error at the subtraction) would raise in the handler. They are not modelled; every stored row has integer fields.
- Sizes that are floating-point numbers are not modelled. The handler would subtract, compare and write them like integers.
- Concurrent joins are not modelled. The code has no locking, and `Session.Serve` covers only joins served one after another.
- The other services (missions, orders, verification) are plain CRUD or forwarding and are outside this model.
