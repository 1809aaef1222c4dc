/** Concrete runs of the join flow with the handler's own ids: group 2 joins
    host group 1. */
module Scenarios {
  import opened Records
  import opened Http
  import opened Upstream
  import opened JoinGroup

  const JoiningId: nat := 2
  const HostId: nat := 1

  /** Host group 1 holds `hostPax` people and broadcasts `lfPax` open places;
      group 2 holds `joiningPax`; the next group created gets id 3. */
  function Before(hostPax: int, lfPax: int, joiningPax: int): Stores {
    Stores(GroupTable(map[HostId := Group(hostPax, "host", Seeking), JoiningId := Group(joiningPax, "joiner", Seeking)], 3),
           map[HostId := Broadcast(lfPax, "open", 0)])
  }

  /** A network on which every call succeeds. */
  function AllOk(): nat -> int {
    (i: nat) => Ok
  }

  /** A network on which only the i-th call fails, with a 500. */
  function FailsAt(k: nat): nat -> int {
    (i: nat) => if i == k then InternalError else Ok
  }

  /** Five joining into five open places merges into a new group of ten, and
      the host group, the joining group and the broadcast are gone. */
  lemma ExactFitMerges()
    ensures var r := Join(Before(5, 5, 5), JoiningId, HostId, AllOk());
            && r.reply == Reply(Ok, Merged, NoDetail)
            && r.stores.groups == GroupTable(map[3 := Group(10, CompleteDescription, Complete)], 4)
            && r.stores.broadcasts == map[]
  {
  }

  /** Three joining into five open places leaves two open; the host group is
      written as 5 + 3 = 8 people although it held 3 before, so the count the
      flow writes is not the host's own size plus the joining size. */
  lemma PartialFitWritesOpenPlacesPlusJoiners()
    ensures var r := Join(Before(3, 5, 3), JoiningId, HostId, AllOk());
            && r.reply == Reply(Ok, PartiallyFilled, NoDetail)
            && r.stores.groups.rows[HostId] == Group(8, SeekingDescription, Seeking)
            && r.stores.broadcasts[HostId].lfPax == 2
            && r.stores.groups.rows[HostId].noOfPax != 3 + 3
  {
  }

  /** A host of ten people with two open places, joined by one person, is
      rewritten to three people: the host's size can go down. */
  lemma PartialFitCanShrinkHost()
    ensures var r := Join(Before(10, 2, 1), JoiningId, HostId, AllOk());
            && r.reply.outcome == PartiallyFilled
            && r.stores.groups.rows[HostId].noOfPax == 3
  {
  }

  /** Seven joining into five open places is refused with 500 and nothing changes. */
  lemma TooLargeIsRefused()
    ensures var r := Join(Before(3, 5, 7), JoiningId, HostId, AllOk());
            && r.reply == Reply(InternalError, ExceedsLimit, JoiningGroup(JoiningId))
            && r.stores == Before(3, 5, 7)
  {
  }

  /** When reading the broadcast fails, the run stops after the two reads. */
  lemma BroadcastReadFailureStops()
    ensures var r := Join(Before(3, 5, 3), JoiningId, HostId, FailsAt(1));
            && r.reply.code == InternalError && r.reply.outcome == FindLfPaxFailed
            && r.trace == [Step(GetGroup(JoiningId), Ok), Step(GetBroadcast(HostId), InternalError)]
            && r.stores == Before(3, 5, 3)
  {
  }

  /** When deleting the broadcast fails but both group deletions succeed, the
      broadcast is left pointing at a host group that no longer exists: no
      merged group is created and nothing is restored. */
  lemma FailedBroadcastDeletionLeavesItBehind()
    ensures var r := Join(Before(5, 5, 5), JoiningId, HostId, FailsAt(2));
            && r.reply.code == InternalError && r.reply.outcome == DeletionFailed
            && |r.trace| == 5
            && r.stores.groups == GroupTable(map[], 3)
            && HostId in r.stores.broadcasts
  {
  }

  /** When only the host group's deletion fails, the deletion failure report
      still carries the broadcast deletion's response, which was a 200. */
  lemma DeletionReportCarriesBroadcastResponse()
    ensures var r := Join(Before(5, 5, 5), JoiningId, HostId, FailsAt(4));
            && r.reply.outcome == DeletionFailed
            && r.reply.detail == Attached("deleteBroadcast_result", Response(Ok, NoBody))
            && r.stores.groups.rows == map[HostId := Group(5, "host", Seeking)]
            && r.stores.broadcasts == map[]
  {
  }
}
