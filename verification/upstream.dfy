/** The calls the handler makes to the Grouping and Broadcast services, with
    the network reduced to an oracle: the caller supplies the status each call
    comes back with, and the service applies the call exactly when that status
    is 2xx. A call addressed to a row that does not exist comes back 404. */
module Upstream {
  import opened Records
  import opened Http

  /** One upstream request. Broadcasts are addressed by their host group's id. */
  datatype Call =
    | GetGroup(id: nat)
    | GetBroadcast(id: nat)
    | DeleteBroadcast(id: nat)
    | DeleteGroup(id: nat)
    | PostGroup(group: Group)
    | PatchGroup(id: nat, group: Group)
    | PatchBroadcast(id: nat, lfPax: int)
  {
    /** GET requests leave both stores alone. */
    predicate IsRead() {
      GetGroup? || GetBroadcast?
    }
  }

  /** A call together with the status code the handler saw for it. */
  datatype Step = Step(call: Call, status: int)

  /** The stores after a call, and the response it produced. */
  datatype Answer = Answer(stores: Stores, response: Response)

  /** Whether the row a call addresses exists; a POST creates a fresh row and
      always has one. */
  predicate HasTarget(s: Stores, c: Call) {
    match c
    case GetGroup(id) => id in s.groups.rows
    case DeleteGroup(id) => id in s.groups.rows
    case PatchGroup(id, _) => id in s.groups.rows
    case GetBroadcast(id) => id in s.broadcasts
    case DeleteBroadcast(id) => id in s.broadcasts
    case PatchBroadcast(id, _) => id in s.broadcasts
    case PostGroup(_) => true
  }

  /** What a logged step does to the stores: nothing unless its status is 2xx;
      otherwise the row is removed, created under the counter's id, or
      overwritten when it exists. A broadcast PATCH changes only `lfPax`. */
  function Effect(s: Stores, step: Step): Stores {
    if !IsSuccess(step.status) then s
    else
      match step.call
      case GetGroup(_) => s
      case GetBroadcast(_) => s
      case DeleteBroadcast(id) => s.(broadcasts := s.broadcasts - {id})
      case DeleteGroup(id) => s.(groups := s.groups.(rows := s.groups.rows - {id}))
      case PostGroup(g) =>
        s.(groups := GroupTable(s.groups.rows[s.groups.nextId := g], s.groups.nextId + 1))
      case PatchGroup(id, g) =>
        if id in s.groups.rows then s.(groups := s.groups.(rows := s.groups.rows[id := g]))
        else s
      case PatchBroadcast(id, lf) =>
        if id in s.broadcasts then s.(broadcasts := s.broadcasts[id := s.broadcasts[id].(lfPax := lf)])
        else s
  }

  /** The stores obtained by applying a log of steps in order. */
  function Replay(s: Stores, trace: seq<Step>): Stores
    decreases |trace|
  {
    if |trace| == 0 then s else Replay(Effect(s, trace[0]), trace[1..])
  }

  /** Issue `call` against the stores when the network delivers `code`. */
  function Invoke(s: Stores, call: Call, code: int): (a: Answer)
    ensures !HasTarget(s, call) ==> a.response.code == NotFound
    ensures HasTarget(s, call) ==> a.response.code == code
    ensures call.IsRead() || !IsSuccess(a.response.code) ==> a.stores == s
    ensures call.GetGroup? && IsSuccess(a.response.code) ==>
              call.id in s.groups.rows && a.response.body == GroupRecord(s.groups.rows[call.id])
    ensures call.GetBroadcast? && IsSuccess(a.response.code) ==>
              call.id in s.broadcasts && a.response.body == BroadcastRecord(s.broadcasts[call.id])
    ensures call.PostGroup? && IsSuccess(a.response.code) ==>
              a.response.body == CreatedGroup(s.groups.nextId, call.group)
    ensures a.stores == Effect(s, Step(call, a.response.code))
  {
    var status := if HasTarget(s, call) then code else NotFound;
    var body :=
      if !IsSuccess(status) then NoBody
      else
        match call
        case GetGroup(id) => GroupRecord(s.groups.rows[id])
        case GetBroadcast(id) => BroadcastRecord(s.broadcasts[id])
        case PostGroup(g) => CreatedGroup(s.groups.nextId, g)
        case _ => NoBody;
    Answer(Effect(s, Step(call, status)), Response(status, body))
  }

  /** A log replays step by step: its prefix first, then the rest. */
  lemma {:induction false} ReplayConcat(s: Stores, front: seq<Step>, back: seq<Step>)
    ensures Replay(s, front + back) == Replay(Replay(s, front), back)
    decreases |front|
  {
    if |front| == 0 {
      assert front + back == back;
    } else {
      assert (front + back)[0] == front[0];
      assert (front + back)[1..] == front[1..] + back;
      ReplayConcat(Effect(s, front[0]), front[1..], back);
    }
  }

  /** A log whose steps are all reads or failures leaves the stores as they were. */
  lemma {:induction false} ReplayWithoutEffect(s: Stores, trace: seq<Step>)
    requires forall i :: 0 <= i < |trace| ==> trace[i].call.IsRead() || !IsSuccess(trace[i].status)
    ensures Replay(s, trace) == s
    decreases |trace|
  {
    if |trace| != 0 {
      assert Effect(s, trace[0]) == s;
      assert forall i :: 0 <= i < |trace[1..]| ==> trace[1..][i] == trace[i + 1];
      ReplayWithoutEffect(s, trace[1..]);
    }
  }

  /** Replaying a one-step log is applying that step. */
  lemma ReplayOne(s: Stores, step: Step)
    ensures Replay(s, [step]) == Effect(s, step)
  {
  }

  /** Every step keeps the stores well-formed when the rows it writes are
      well-formed themselves. */
  lemma EffectPreservesWellformed(s: Stores, step: Step)
    requires Wellformed(s)
    requires step.call.PostGroup? || step.call.PatchGroup? ==> step.call.group.noOfPax >= 1
    requires step.call.PatchBroadcast? ==> step.call.lfPax > 0
    ensures Wellformed(Effect(s, step))
  {
  }
}
