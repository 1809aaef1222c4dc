/** The join flow: a joining group asks to merge into a host group that has an
    open broadcast. The flow reads both sizes, classifies the join, and then
    rejects it, merges both groups into a new complete group, or grows the host
    group and shrinks its broadcast. Every upstream call is logged with the
    status the handler saw, and the network's statuses come from an oracle
    `net`, where `net(i)` is the status delivered to the i-th call. The handler
    uses the literal ids 2 (joining) and 1 (host); here they are parameters. */
module JoinGroup {
  import opened Records
  import opened Http
  import opened Upstream
  import opened Capacity
  import opened Process

  /** Which of the handler's returns produced the reply. */
  datatype Outcome =
    | FindNoOfPaxFailed
    | FindLfPaxFailed
    | ExceedsLimit
    | DeletionFailed
    | CreationFailed
    | GroupUpdateFailed
    | BroadcastUpdateFailed
    | Merged
    | PartiallyFilled

  /** The `data` part of a reply: an upstream response under its key, or the
      joining group's id when the join is refused for size. */
  datatype Detail =
    | NoDetail
    | Attached(key: string, response: Response)
    | JoiningGroup(id: nat)

  /** The reply's `code` field, the return it came from, and its data. */
  datatype Reply = Reply(code: int, outcome: Outcome, detail: Detail) {
    /** The message text the handler attaches to this return. */
    function Message(): string {
      match outcome
      case FindNoOfPaxFailed => "findNoOfPax failed."
      case FindLfPaxFailed => "findNLFPax failed."
      case ExceedsLimit => "Number of pax in your group exceeds limit."
      case DeletionFailed => "Failed to join group as deletion of broadcast/group(s) failed."
      case CreationFailed => "Failed to join group as group creation failed."
      case GroupUpdateFailed => "Failed to join group as group update failed."
      case BroadcastUpdateFailed => "Failed to join group as broadcast update failed."
      case Merged => "Join group success! New group ID is "
      case PartiallyFilled => "Join group success! You are now part of group 1. We are in the midst of completing your group."
    }
  }

  /** One run of the flow: the stores after it, its reply, and the log of the
      upstream calls it issued, in order. */
  datatype Run = Run(stores: Stores, reply: Reply, trace: seq<Step>)

  const CompleteDescription: string := "Complete group!"
  const SeekingDescription: string := "looking for more members"

  /** Both reads of a run came back 2xx. */
  predicate Fetched(r: Run) {
    |r.trace| >= 2 && IsSuccess(r.trace[0].status) && IsSuccess(r.trace[1].status)
  }

  /** The group that replaces both groups when the join fills the host exactly. */
  function MergedGroup(lfPax: int, joiningPax: int): Group {
    Group(lfPax + joiningPax, CompleteDescription, Complete)
  }

  /** The host group as rewritten when the join leaves places open. */
  function GrownHost(lfPax: int, joiningPax: int): Group {
    Group(lfPax + joiningPax, SeekingDescription, Seeking)
  }

  /** The three deletions of the perfect-match branch, issued in order: the
      host's broadcast, the joining group, the host group. */
  datatype Deletions = Deletions(stores: Stores, broadcastDeletion: Response, trace: seq<Step>)

  /** Issue all three deletions, whatever the earlier ones returned. */
  function DeleteParticipants(s: Stores, joiningId: nat, hostId: nat, c1: int, c2: int, c3: int): (d: Deletions)
    ensures |d.trace| == 3
    ensures d.trace[0].call == DeleteBroadcast(hostId)
    ensures d.trace[1].call == DeleteGroup(joiningId)
    ensures d.trace[2].call == DeleteGroup(hostId)
    // each deletion's status: 404 when its row is gone by then, else the network's
    ensures d.trace[0].status == (if hostId in s.broadcasts then c1 else NotFound)
    ensures d.trace[1].status == (if joiningId in s.groups.rows then c2 else NotFound)
    ensures d.trace[2].status ==
              (if hostId in s.groups.rows && !(hostId == joiningId && IsSuccess(d.trace[1].status)) then c3
               else NotFound)
    ensures d.broadcastDeletion.code == d.trace[0].status
    ensures d.stores == Effect(Effect(Effect(s, d.trace[0]), d.trace[1]), d.trace[2])
  {
    var deleteBroadcast := Invoke(s, DeleteBroadcast(hostId), c1);
    var deleteJoining := Invoke(deleteBroadcast.stores, DeleteGroup(joiningId), c2);
    var deleteHost := Invoke(deleteJoining.stores, DeleteGroup(hostId), c3);
    Deletions(deleteHost.stores, deleteBroadcast.response,
              [Step(DeleteBroadcast(hostId), deleteBroadcast.response.code),
               Step(DeleteGroup(joiningId), deleteJoining.response.code),
               Step(DeleteGroup(hostId), deleteHost.response.code)])
  }

  /** The perfect-match branch. All three deletions are issued, whatever the
      earlier ones returned; only when all three report 2xx is the merged group
      created. Nothing already deleted is ever put back. */
  function MergePerfect(s: Stores, joiningId: nat, hostId: nat, lfPax: int, joiningPax: int,
                        c1: int, c2: int, c3: int, c4: int): (r: Run)
    ensures 3 <= |r.trace| <= 4
    ensures r.trace[..3] == DeleteParticipants(s, joiningId, hostId, c1, c2, c3).trace
    ensures |r.trace| == 4 <==> forall i :: 0 <= i < 3 ==> IsSuccess(r.trace[i].status)
    ensures |r.trace| == 4 ==> r.trace[3] == Step(PostGroup(MergedGroup(lfPax, joiningPax)),
                                                  if IsSuccess(c4) then c4 else InternalError)
    ensures r.reply.code == Ok <==> |r.trace| == 4 && IsSuccess(r.trace[3].status)
    ensures r.reply.code != Ok ==> r.reply.code == InternalError
    ensures r.reply.outcome == (if |r.trace| == 3 then DeletionFailed
                                else if r.reply.code == Ok then Merged
                                else CreationFailed)
    ensures r.reply.outcome == DeletionFailed ==>
              r.reply.detail.Attached? && r.reply.detail.response.code == r.trace[0].status
  {
    var deletions := DeleteParticipants(s, joiningId, hostId, c1, c2, c3);
    if !IsSuccess(deletions.trace[0].status) || !IsSuccess(deletions.trace[1].status)
       || !IsSuccess(deletions.trace[2].status)
    then
      Run(deletions.stores,
          Reply(InternalError, DeletionFailed, Attached("deleteBroadcast_result", deletions.broadcastDeletion)),
          deletions.trace)
    else
      var merged := MergedGroup(lfPax, joiningPax);
      var created := ProcessCreateGroup(deletions.stores, merged, c4);
      var trace := deletions.trace + [Step(PostGroup(merged), created.response.code)];
      assert trace[..3] == deletions.trace;
      if !IsSuccess(created.response.code) then
        Run(created.stores, Reply(InternalError, CreationFailed, Attached("joinGroup_result", created.response)), trace)
      else
        Run(created.stores, Reply(Ok, Merged, NoDetail), trace)
  }

  /** The partial-match branch: rewrite the host group, and only if that
      succeeded, lower the broadcast's open places. */
  function FillPartial(s: Stores, hostId: nat, lfPax: int, joiningPax: int, c1: int, c2: int): (r: Run)
    ensures 1 <= |r.trace| <= 2
    ensures r.trace[0].call == PatchGroup(hostId, GrownHost(lfPax, joiningPax))
    ensures IsSuccess(r.trace[0].status) <==> hostId in s.groups.rows && IsSuccess(c1)
    ensures IsSuccess(r.trace[0].status) ==> r.trace[0].status == c1
    ensures |r.trace| == 2 <==> IsSuccess(r.trace[0].status)
    ensures |r.trace| == 2 ==> r.trace[1].call == PatchBroadcast(hostId, lfPax - joiningPax)
    ensures |r.trace| == 2 ==> (IsSuccess(r.trace[1].status) <==> hostId in s.broadcasts && IsSuccess(c2))
    ensures |r.trace| == 2 && IsSuccess(r.trace[1].status) ==> r.trace[1].status == c2
    ensures r.reply.code == Ok <==> |r.trace| == 2 && IsSuccess(r.trace[1].status)
    ensures r.reply.code != Ok ==> r.reply.code == InternalError
    ensures r.reply.outcome == (if |r.trace| == 1 then GroupUpdateFailed
                                else if r.reply.code == Ok then PartiallyFilled
                                else BroadcastUpdateFailed)
  {
    var host := GrownHost(lfPax, joiningPax);
    var updateGrouping := ProcessUpdateGrouping(s, hostId, host, c1);
    var patchGroup := Step(PatchGroup(hostId, host), updateGrouping.response.code);
    if !IsSuccess(updateGrouping.response.code) then
      Run(updateGrouping.stores,
          Reply(InternalError, GroupUpdateFailed, Attached("updateGrouping_result", updateGrouping.response)),
          [patchGroup])
    else
      var newLfPax := lfPax - joiningPax;
      var updateBroadcast := ProcessUpdateBroadcast(updateGrouping.stores, hostId, newLfPax, c2);
      var trace := [patchGroup, Step(PatchBroadcast(hostId, newLfPax), updateBroadcast.response.code)];
      if !IsSuccess(updateBroadcast.response.code) then
        Run(updateBroadcast.stores,
            Reply(InternalError, BroadcastUpdateFailed, Attached("updateBroadcast_result", updateBroadcast.response)),
            trace)
      else
        Run(updateBroadcast.stores, Reply(Ok, PartiallyFilled, NoDetail), trace)
  }

  /** The whole flow for one join request. */
  function Join(s: Stores, joiningId: nat, hostId: nat, net: nat -> int): (r: Run)
    ensures 1 <= |r.trace| <= 6
    ensures r.trace[0].call == GetGroup(joiningId)
    ensures |r.trace| >= 2 ==> r.trace[1].call == GetBroadcast(hostId)
    ensures r.reply.code == Ok || r.reply.code == InternalError
    // each read's status: 404 when its row is missing, else the network's
    ensures r.trace[0].status == (if joiningId in s.groups.rows then net(0) else NotFound)
    ensures |r.trace| >= 2 ==> r.trace[1].status == (if hostId in s.broadcasts then net(1) else NotFound)
    ensures Fetched(r) <==>
              joiningId in s.groups.rows && IsSuccess(net(0)) && hostId in s.broadcasts && IsSuccess(net(1))
    // a failed read ends the run: nothing is written and the reply is 500
    ensures !IsSuccess(r.trace[0].status) ==>
              |r.trace| == 1 && r.stores == s && r.reply.code == InternalError && r.reply.outcome == FindNoOfPaxFailed
    ensures IsSuccess(r.trace[0].status) ==> |r.trace| >= 2 && joiningId in s.groups.rows
    ensures IsSuccess(r.trace[0].status) && !IsSuccess(r.trace[1].status) ==>
              |r.trace| == 2 && r.stores == s && r.reply.code == InternalError && r.reply.outcome == FindLfPaxFailed
    ensures Fetched(r) ==> hostId in s.broadcasts
    // a join too large for the broadcast is refused without any write
    ensures r.reply.outcome == ExceedsLimit <==>
              Fetched(r) && s.groups.rows[joiningId].noOfPax > s.broadcasts[hostId].lfPax
    ensures r.reply.outcome == ExceedsLimit ==>
              && |r.trace| == 2 && r.stores == s && r.reply.code == InternalError
              && r.reply.detail == JoiningGroup(joiningId)
              && r.reply.Message() == "Number of pax in your group exceeds limit."
    ensures !Fetched(r) || r.reply.outcome == ExceedsLimit ==>
              forall i :: 0 <= i < |r.trace| ==> r.trace[i].call.IsRead()
    // the two mutating branches, by the classification of the fetched sizes
    ensures Fetched(r) && s.groups.rows[joiningId].noOfPax == s.broadcasts[hostId].lfPax ==>
              var m := MergePerfect(s, joiningId, hostId, s.broadcasts[hostId].lfPax, s.groups.rows[joiningId].noOfPax,
                                    net(2), net(3), net(4), net(5));
              r.stores == m.stores && r.reply == m.reply && r.trace == r.trace[..2] + m.trace
    ensures Fetched(r) && s.groups.rows[joiningId].noOfPax < s.broadcasts[hostId].lfPax ==>
              var p := FillPartial(s, hostId, s.broadcasts[hostId].lfPax, s.groups.rows[joiningId].noOfPax, net(2), net(3));
              r.stores == p.stores && r.reply == p.reply && r.trace == r.trace[..2] + p.trace
  {
    var groupDetails := Invoke(s, GetGroup(joiningId), net(0));
    var fetchJoining := Step(GetGroup(joiningId), groupDetails.response.code);
    if !IsSuccess(groupDetails.response.code) then
      Run(s, Reply(InternalError, FindNoOfPaxFailed, Attached("findNoOfPax_result", groupDetails.response)), [fetchJoining])
    else
      var joiningPax := groupDetails.response.body.group.noOfPax;
      var broadcastDetails := Invoke(s, GetBroadcast(hostId), net(1));
      var fetched := [fetchJoining, Step(GetBroadcast(hostId), broadcastDetails.response.code)];
      if !IsSuccess(broadcastDetails.response.code) then
        Run(s, Reply(InternalError, FindLfPaxFailed, Attached("findLFPax_result", broadcastDetails.response)), fetched)
      else
        var lfPax := broadcastDetails.response.body.broadcast.lfPax;
        match Classify(lfPax, joiningPax)
        case Reject =>
          Run(s, Reply(InternalError, ExceedsLimit, JoiningGroup(joiningId)), fetched)
        case PerfectMatch =>
          var m := MergePerfect(s, joiningId, hostId, lfPax, joiningPax, net(2), net(3), net(4), net(5));
          Run(m.stores, m.reply, fetched + m.trace)
        case PartialMatch(_) =>
          var p := FillPartial(s, hostId, lfPax, joiningPax, net(2), net(3));
          Run(p.stores, p.reply, fetched + p.trace)
  }
}
