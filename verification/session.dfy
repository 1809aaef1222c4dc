/** Join requests answered one after another against the same stores, each
    run reading the stores the previous one left. The network oracle is one
    stream of statuses shared by all runs, consumed in call order. */
module Session {
  import opened Records
  import opened Http
  import opened Upstream
  import opened JoinGroup
  import opened JoinProperties

  datatype Request = Request(joiningId: nat, hostId: nat)

  /** The stores after a series of joins, each join's reply, and every upstream
      call the series issued. */
  datatype Log = Log(stores: Stores, replies: seq<Reply>, trace: seq<Step>)

  function Serve(s: Stores, requests: seq<Request>, net: nat -> int): (r: Log)
    ensures |r.replies| == |requests|
    ensures |requests| <= |r.trace| <= 6 * |requests|
    ensures forall i :: 0 <= i < |r.replies| ==> r.replies[i].code == Ok || r.replies[i].code == InternalError
    ensures r.stores == Replay(s, r.trace)
    ensures Wellformed(s) ==> Wellformed(r.stores)
    decreases |requests|
  {
    if |requests| == 0 then Log(s, [], [])
    else
      var first := Join(s, requests[0].joiningId, requests[0].hostId, net);
      var used := |first.trace|;
      var rest := Serve(first.stores, requests[1..], (i: nat) => net(i + used));
      JoinReplaysTrace(s, requests[0].joiningId, requests[0].hostId, net);
      ReplayConcat(s, first.trace, rest.trace);
      var log := Log(rest.stores, [first.reply] + rest.replies, first.trace + rest.trace);
      if Wellformed(s) then
        JoinPreservesWellformed(s, requests[0].joiningId, requests[0].hostId, net);
        log
      else
        log
  }

  /** Serving is joining in turn: the first reply and the first calls are those
      of the first join on the given stores, and the remaining replies are
      those of serving the rest on the stores it left, with the network's
      statuses continuing where the first join stopped. */
  lemma ServeJoinsInTurn(s: Stores, requests: seq<Request>, net: nat -> int)
    requires |requests| > 0
    ensures var first := Join(s, requests[0].joiningId, requests[0].hostId, net);
            var rest := Serve(first.stores, requests[1..], (i: nat) => net(i + |first.trace|));
            var r := Serve(s, requests, net);
            && r.replies == [first.reply] + rest.replies
            && r.trace == first.trace + rest.trace
            && r.stores == rest.stores
  {
  }
}
