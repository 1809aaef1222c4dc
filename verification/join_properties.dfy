/** What one or two runs of the join flow do to the stores. */
module JoinProperties {
  import opened Records
  import opened Http
  import opened Upstream
  import opened JoinGroup

  /** The perfect-match branch changes the stores exactly by the calls it
      logged as 2xx. */
  lemma MergeReplaysTrace(s: Stores, joiningId: nat, hostId: nat, lfPax: int, joiningPax: int,
                          c1: int, c2: int, c3: int, c4: int)
    ensures var m := MergePerfect(s, joiningId, hostId, lfPax, joiningPax, c1, c2, c3, c4);
            m.stores == Replay(s, m.trace)
  {
    var m := MergePerfect(s, joiningId, hostId, lfPax, joiningPax, c1, c2, c3, c4);
    var s1 := Effect(s, m.trace[0]);
    var s2 := Effect(s1, m.trace[1]);
    var s3 := Effect(s2, m.trace[2]);
    ReplayConcat(s, [m.trace[0]], m.trace[1..]);
    ReplayOne(s, m.trace[0]);
    ReplayConcat(s1, [m.trace[1]], m.trace[2..]);
    ReplayOne(s1, m.trace[1]);
    ReplayConcat(s2, [m.trace[2]], m.trace[3..]);
    ReplayOne(s2, m.trace[2]);
    if |m.trace| == 4 {
      ReplayOne(s3, m.trace[3]);
    }
  }

  /** The partial-match branch changes the stores exactly by the calls it
      logged as 2xx. */
  lemma FillReplaysTrace(s: Stores, hostId: nat, lfPax: int, joiningPax: int, c1: int, c2: int)
    ensures var p := FillPartial(s, hostId, lfPax, joiningPax, c1, c2);
            p.stores == Replay(s, p.trace)
  {
    var p := FillPartial(s, hostId, lfPax, joiningPax, c1, c2);
    ReplayConcat(s, [p.trace[0]], p.trace[1..]);
    ReplayOne(s, p.trace[0]);
    if |p.trace| == 2 {
      ReplayOne(Effect(s, p.trace[0]), p.trace[1]);
    }
  }

  /** A join changes the stores exactly by the calls it logged as 2xx, in the
      order it issued them: there is no hidden write and no compensating one. */
  lemma JoinReplaysTrace(s: Stores, joiningId: nat, hostId: nat, net: nat -> int)
    ensures var r := Join(s, joiningId, hostId, net);
            r.stores == Replay(s, r.trace)
  {
    var r := Join(s, joiningId, hostId, net);
    if !Fetched(r) || r.reply.outcome == ExceedsLimit {
      ReplayWithoutEffect(s, r.trace);
    } else {
      var lfPax := s.broadcasts[hostId].lfPax;
      var joiningPax := s.groups.rows[joiningId].noOfPax;
      var front := r.trace[..2];
      ReplayWithoutEffect(s, front);
      if joiningPax == lfPax {
        var m := MergePerfect(s, joiningId, hostId, lfPax, joiningPax, net(2), net(3), net(4), net(5));
        MergeReplaysTrace(s, joiningId, hostId, lfPax, joiningPax, net(2), net(3), net(4), net(5));
        ReplayConcat(s, front, m.trace);
      } else {
        var p := FillPartial(s, hostId, lfPax, joiningPax, net(2), net(3));
        FillReplaysTrace(s, hostId, lfPax, joiningPax, net(2), net(3));
        ReplayConcat(s, front, p.trace);
      }
    }
  }

  /** A join leaves well-formed stores well-formed: every row it writes holds
      at least one person, and the broadcast it keeps open still has places. */
  lemma JoinPreservesWellformed(s: Stores, joiningId: nat, hostId: nat, net: nat -> int)
    requires Wellformed(s)
    ensures Wellformed(Join(s, joiningId, hostId, net).stores)
  {
    var r := Join(s, joiningId, hostId, net);
    if Fetched(r) && r.reply.outcome != ExceedsLimit {
      var lfPax := s.broadcasts[hostId].lfPax;
      var joiningPax := s.groups.rows[joiningId].noOfPax;
      if joiningPax == lfPax {
        MergeKeepsWellformed(s, joiningId, hostId, lfPax, joiningPax, net(2), net(3), net(4), net(5));
      } else {
        FillKeepsWellformed(s, hostId, lfPax, joiningPax, net(2), net(3));
      }
    }
  }

  /** The perfect-match branch keeps the stores well-formed when both sizes
      are positive. */
  lemma MergeKeepsWellformed(s: Stores, joiningId: nat, hostId: nat, lfPax: int, joiningPax: int,
                             c1: int, c2: int, c3: int, c4: int)
    requires Wellformed(s) && lfPax > 0 && joiningPax >= 1
    ensures Wellformed(MergePerfect(s, joiningId, hostId, lfPax, joiningPax, c1, c2, c3, c4).stores)
  {
    var m := MergePerfect(s, joiningId, hostId, lfPax, joiningPax, c1, c2, c3, c4);
    MergeReplaysTrace(s, joiningId, hostId, lfPax, joiningPax, c1, c2, c3, c4);
    ReplayKeepsWellformed(s, m.trace);
  }

  /** The partial-match branch keeps the stores well-formed when the join
      leaves places open and the joining group is not empty. */
  lemma FillKeepsWellformed(s: Stores, hostId: nat, lfPax: int, joiningPax: int, c1: int, c2: int)
    requires Wellformed(s) && joiningPax < lfPax && joiningPax >= 1
    ensures Wellformed(FillPartial(s, hostId, lfPax, joiningPax, c1, c2).stores)
  {
    var p := FillPartial(s, hostId, lfPax, joiningPax, c1, c2);
    FillReplaysTrace(s, hostId, lfPax, joiningPax, c1, c2);
    ReplayKeepsWellformed(s, p.trace);
  }

  /** Replaying steps that only write rows holding people and broadcasts with
      places keeps the stores well-formed. */
  lemma {:induction false} ReplayKeepsWellformed(s: Stores, trace: seq<Step>)
    requires Wellformed(s)
    requires forall i :: 0 <= i < |trace| && (trace[i].call.PostGroup? || trace[i].call.PatchGroup?) ==>
               trace[i].call.group.noOfPax >= 1
    requires forall i :: 0 <= i < |trace| && trace[i].call.PatchBroadcast? ==> trace[i].call.lfPax > 0
    ensures Wellformed(Replay(s, trace))
    decreases |trace|
  {
    if |trace| != 0 {
      EffectPreservesWellformed(s, trace[0]);
      assert forall i :: 0 <= i < |trace[1..]| ==> trace[1..][i] == trace[i + 1];
      ReplayKeepsWellformed(Effect(s, trace[0]), trace[1..]);
    }
  }

  /** A deletion that succeeded in the perfect-match branch stays done, even
      when a later step fails: the flow never re-creates what it removed. */
  lemma MergeNeverRestores(s: Stores, joiningId: nat, hostId: nat, lfPax: int, joiningPax: int,
                           c1: int, c2: int, c3: int, c4: int)
    requires Wellformed(s)
    ensures var m := MergePerfect(s, joiningId, hostId, lfPax, joiningPax, c1, c2, c3, c4);
            && (IsSuccess(m.trace[0].status) ==> hostId !in m.stores.broadcasts)
            && (IsSuccess(m.trace[1].status) ==> joiningId !in m.stores.groups.rows)
            && (IsSuccess(m.trace[2].status) ==> hostId !in m.stores.groups.rows)
            && (!IsSuccess(m.trace[0].status) ==> m.stores.broadcasts == s.broadcasts)
  {
  }

  /** A merged join leaves the new complete group, holding both sizes added
      together, and removes the joining group, the host group and its broadcast. */
  lemma MergedReplacesBothGroups(s: Stores, joiningId: nat, hostId: nat, net: nat -> int)
    ensures var r := Join(s, joiningId, hostId, net);
            r.reply.outcome == Merged ==>
              && joiningId in s.groups.rows && hostId in s.broadcasts
              && s.groups.rows[joiningId].noOfPax == s.broadcasts[hostId].lfPax
              && joiningId != hostId
              && r.stores.groups.nextId == s.groups.nextId + 1
              && r.stores.groups.rows ==
                 (s.groups.rows - {joiningId, hostId})[s.groups.nextId :=
                   Group(s.broadcasts[hostId].lfPax + s.groups.rows[joiningId].noOfPax, CompleteDescription, Complete)]
              && r.stores.broadcasts == s.broadcasts - {hostId}
  {
  }

  /** When both groups and the broadcast exist, the sizes are equal and the
      network delivers 2xx to all six calls, the join merges. */
  lemma JoinMergesWhenAllSucceed(s: Stores, joiningId: nat, hostId: nat, net: nat -> int)
    requires joiningId != hostId
    requires joiningId in s.groups.rows && hostId in s.groups.rows && hostId in s.broadcasts
    requires s.groups.rows[joiningId].noOfPax == s.broadcasts[hostId].lfPax
    requires forall i :: 0 <= i < 6 ==> IsSuccess(net(i))
    ensures Join(s, joiningId, hostId, net).reply == Reply(Ok, Merged, NoDetail)
  {
  }

  /** When the joining group, the host group and its broadcast exist, the
      joining group is smaller than the open places and the network delivers
      2xx to all four calls, the join partially fills the host. */
  lemma JoinFillsWhenAllSucceed(s: Stores, joiningId: nat, hostId: nat, net: nat -> int)
    requires joiningId in s.groups.rows && hostId in s.groups.rows && hostId in s.broadcasts
    requires s.groups.rows[joiningId].noOfPax < s.broadcasts[hostId].lfPax
    requires forall i :: 0 <= i < 4 ==> IsSuccess(net(i))
    ensures Join(s, joiningId, hostId, net).reply == Reply(Ok, PartiallyFilled, NoDetail)
  {
  }

  /** A partially filled join rewrites the host group to the broadcast's open
      places plus the joining size, lowers the broadcast's open places by the
      joining size, keeps them positive, and changes nothing else. */
  lemma PartiallyFilledUpdatesHost(s: Stores, joiningId: nat, hostId: nat, net: nat -> int)
    ensures var r := Join(s, joiningId, hostId, net);
            r.reply.outcome == PartiallyFilled ==>
              && joiningId in s.groups.rows && hostId in s.groups.rows && hostId in s.broadcasts
              && var lfPax := s.broadcasts[hostId].lfPax;
                 var joiningPax := s.groups.rows[joiningId].noOfPax;
                 && joiningPax < lfPax
                 && r.stores.groups == s.groups.(rows := s.groups.rows[hostId := GrownHost(lfPax, joiningPax)])
                 && r.stores.broadcasts == s.broadcasts[hostId := s.broadcasts[hostId].(lfPax := lfPax - joiningPax)]
                 && r.stores.broadcasts[hostId].lfPax > 0
  {
  }

  /** Two joins against the same host, served one after the other, cannot both
      succeed when their sizes together exceed the host's open places: the
      first success lowers (or removes) the broadcast the second one reads. */
  lemma SerialJoinsNeverOversubscribe(s: Stores, firstId: nat, secondId: nat, hostId: nat,
                                      net1: nat -> int, net2: nat -> int)
    ensures var r1 := Join(s, firstId, hostId, net1);
            var r2 := Join(r1.stores, secondId, hostId, net2);
            r1.reply.code == Ok && r2.reply.code == Ok ==>
              && r1.reply.outcome == PartiallyFilled
              && firstId in s.groups.rows && hostId in s.broadcasts && secondId in r1.stores.groups.rows
              && s.groups.rows[firstId].noOfPax + r1.stores.groups.rows[secondId].noOfPax <= s.broadcasts[hostId].lfPax
  {
    var r1 := Join(s, firstId, hostId, net1);
    var r2 := Join(r1.stores, secondId, hostId, net2);
    if r1.reply.code == Ok && r2.reply.code == Ok {
      if r1.reply.outcome == Merged {
        MergedLeavesNoBroadcast(s, firstId, hostId, net1);
      } else {
        PartiallyFilledUpdatesHost(s, firstId, hostId, net1);
      }
    }
  }

  /** After a merged join the host's broadcast is gone. */
  lemma MergedLeavesNoBroadcast(s: Stores, joiningId: nat, hostId: nat, net: nat -> int)
    ensures var r := Join(s, joiningId, hostId, net);
            r.reply.outcome == Merged ==> hostId !in r.stores.broadcasts
  {
  }

  /** Repeating a request after it partially filled the host reads the lowered
      broadcast: the second run is classified against the places left by the
      first, so the same size is never subtracted from the original count twice. */
  lemma RetryReadsLoweredCapacity(s: Stores, joiningId: nat, hostId: nat, net1: nat -> int, net2: nat -> int)
    requires joiningId != hostId
    ensures var r1 := Join(s, joiningId, hostId, net1);
            var r2 := Join(r1.stores, joiningId, hostId, net2);
            r1.reply.outcome == PartiallyFilled && Fetched(r2) ==>
              && joiningId in s.groups.rows && hostId in s.broadcasts
              && var lfPax := s.broadcasts[hostId].lfPax;
                 var joiningPax := s.groups.rows[joiningId].noOfPax;
                 && r1.stores.broadcasts[hostId].lfPax == lfPax - joiningPax
                 && r1.stores.groups.rows[joiningId].noOfPax == joiningPax
                 && (r2.reply.outcome == ExceedsLimit <==> joiningPax > lfPax - joiningPax)
  {
    PartiallyFilledUpdatesHost(s, joiningId, hostId, net1);
  }
}
