/** The handler's wrapper functions: each issues one upstream call (or, for the
    two pass-through endpoints, receives its response) and puts the result
    through the status guard. The host id is a parameter where the handler has
    the literal 1 in its URLs. */
module Process {
  import opened Records
  import opened Http
  import opened Upstream

  /** Create a group with a POST to the Grouping service. */
  function ProcessCreateGroup(s: Stores, group: Group, code: int): (a: Answer)
    ensures IsSuccess(a.response.code) <==> IsSuccess(code)
    ensures IsSuccess(code) ==>
              && a.response == Response(code, CreatedGroup(s.groups.nextId, group))
              && a.stores == s.(groups := GroupTable(s.groups.rows[s.groups.nextId := group], s.groups.nextId + 1))
    ensures !IsSuccess(code) ==>
              && a.stores == s
              && a.response == Response(InternalError, Wrapped("createGroup_result", Response(code, NoBody), "New group creation failed."))
  {
    var created := Invoke(s, PostGroup(group), code);
    Answer(created.stores, Guard(created.response, "createGroup_result", "New group creation failed."))
  }

  /** Overwrite the host group with a PATCH to the Grouping service. */
  function ProcessUpdateGrouping(s: Stores, hostId: nat, group: Group, code: int): (a: Answer)
    ensures IsSuccess(a.response.code) <==> hostId in s.groups.rows && IsSuccess(code)
    ensures IsSuccess(a.response.code) ==>
              && a.response.code == code
              && a.stores == s.(groups := s.groups.(rows := s.groups.rows[hostId := group]))
    ensures !IsSuccess(a.response.code) ==>
              && a.stores == s
              && a.response.code == InternalError
              && a.response.body.Wrapped?
              && a.response.body.inner.code == (if hostId in s.groups.rows then code else NotFound)
  {
    var updated := Invoke(s, PatchGroup(hostId, group), code);
    Answer(updated.stores, Guard(updated.response, "updateGrouping_result", "Failure to join group as group update failed."))
  }

  /** Set the host broadcast's `lfPax` with a PATCH to the Broadcast service;
      its other fields are kept. */
  function ProcessUpdateBroadcast(s: Stores, hostId: nat, lfPax: int, code: int): (a: Answer)
    ensures IsSuccess(a.response.code) <==> hostId in s.broadcasts && IsSuccess(code)
    ensures IsSuccess(a.response.code) ==>
              && a.response.code == code
              && a.stores.groups == s.groups
              && a.stores.broadcasts.Keys == s.broadcasts.Keys
              && a.stores.broadcasts[hostId] == s.broadcasts[hostId].(lfPax := lfPax)
              && (forall id :: id in s.broadcasts && id != hostId ==> a.stores.broadcasts[id] == s.broadcasts[id])
    ensures !IsSuccess(a.response.code) ==>
              && a.stores == s
              && a.response.code == InternalError
              && a.response.body.Wrapped?
              && a.response.body.inner.code == (if hostId in s.broadcasts then code else NotFound)
  {
    var updated := Invoke(s, PatchBroadcast(hostId, lfPax), code);
    Answer(updated.stores, Guard(updated.response, "updateBroadcast_result", "Failure to join group as broadcast update failed."))
  }

  /** The reply to a broadcast creation, given the Broadcast service's response. */
  function ProcessCreateBroadcast(upstream: Response): (r: Response)
    ensures IsSuccess(upstream.code) ==> r == upstream
    ensures !IsSuccess(upstream.code) ==>
              r == Response(InternalError, Wrapped("createBroadcast_result", upstream, "Broadcast failed."))
  {
    Guard(upstream, "createBroadcast_result", "Broadcast failed.")
  }

  /** The reply to a listing of all broadcasts, given the Broadcast service's response. */
  function AllBroadcasts(upstream: Response): (r: Response)
    ensures IsSuccess(upstream.code) ==> r == upstream
    ensures !IsSuccess(upstream.code) ==>
              r == Response(InternalError, Wrapped("getAllBroadcasts_result", upstream, "Broadcast failed."))
  {
    Guard(upstream, "getAllBroadcasts_result", "Broadcast failed.")
  }
}
