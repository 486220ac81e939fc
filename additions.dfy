/** Properties of CreateDefaultMemberships (`Reconcile.CreateDefaultMemberships`). */
module Additions {
  import opened Types
  import opened StoreModel
  import opened Reconcile

  /** The commands issued by the team loop for `pairs` when none of them fails. */
  function TeamAddCalls(pairs: seq<TeamMember>): (calls: seq<Call>)
    ensures |calls| == |pairs|
  {
    if pairs == [] then []
    else
      var last := pairs[|pairs| - 1];
      TeamAddCalls(pairs[..|pairs| - 1]) + [AddTeamMemberCall(last.team, last.user)]
  }

  /** The state after the team loop has added every one of `pairs`: the new team
      memberships are non-admin, the existing ones keep their flag. */
  function AfterTeamAdds(db: Db, pairs: seq<TeamMember>): (db': Db)
    ensures db'.teamMembers.Keys == db.teamMembers.Keys + Members(pairs)
    ensures Grows(db, db') && db'.channelMembers == db.channelMembers
  {
    db.(calls := db.calls + TeamAddCalls(pairs),
        teamMembers := map m | m in db.teamMembers.Keys + Members(pairs) ::
                         if m in db.teamMembers then db.teamMembers[m] else false)
  }

  /** No command issued from now on fails. */
  ghost predicate NoFaultsAhead(db: Db)
  {
    forall k :: k in db.faults ==> k < |db.calls|
  }

  /** Adding one more pair without failure is one more step of the closed form. */
  lemma AfterTeamAddsSnoc(db: Db, pairs: seq<TeamMember>, p: TeamMember)
    requires |db.calls| + |pairs| !in db.faults
    ensures AddTeamMember(AfterTeamAdds(db, pairs), p.team, p.user) == After(AfterTeamAdds(db, pairs + [p]), Pass)
  {
    assert (pairs + [p])[..|pairs|] == pairs;
    assert Members(pairs + [p]) == Members(pairs) + {p};
  }

  /** While none of the first `k` adds fails, the team loop adds them one after the
      other and then carries on with the rest of the list. */
  lemma {:induction false} AddTeamsPrefix(db: Db, pairs: seq<TeamMember>, k: nat)
    requires k <= |pairs|
    requires forall j :: |db.calls| <= j < |db.calls| + k ==> j !in db.faults
    ensures AddTeams(db, pairs) == AddTeams(AfterTeamAdds(db, pairs[..k]), pairs[k..])
    decreases k
  {
    if k == 0 {
      assert pairs[..0] == [];
      assert AfterTeamAdds(db, []) == db;
    } else {
      AddTeamsPrefix(db, pairs, k - 1);
      var before := AfterTeamAdds(db, pairs[..k - 1]);
      AfterTeamAddsSnoc(db, pairs[..k - 1], pairs[k - 1]);
      assert pairs[..k - 1] + [pairs[k - 1]] == pairs[..k];
      assert pairs[k - 1..][0] == pairs[k - 1] && pairs[k - 1..][1..] == pairs[k..];
    }
  }

  /** A successful team loop without failures is exactly the closed form. */
  lemma AddTeamsAllAdded(db: Db, pairs: seq<TeamMember>)
    requires forall j :: |db.calls| <= j < |db.calls| + |pairs| ==> j !in db.faults
    ensures AddTeams(db, pairs) == After(AfterTeamAdds(db, pairs), Pass)
  {
    AddTeamsPrefix(db, pairs, |pairs|);
    assert pairs[..|pairs|] == pairs;
  }

  /** If the add of the k-th team pair is the first to fail, the pass returns that error;
      the pairs before it stay added, and no later pair is attempted. */
  lemma AddTeamsAbortAt(db: Db, pairs: seq<TeamMember>, k: nat)
    requires k < |pairs|
    requires forall j :: |db.calls| <= j < |db.calls| + k ==> j !in db.faults
    requires |db.calls| + k in db.faults
    ensures AddTeams(db, pairs)
         == After(Issue(AfterTeamAdds(db, pairs[..k]), AddTeamMemberCall(pairs[k].team, pairs[k].user)),
                  Fail(db.faults[|db.calls| + k]))
  {
    AddTeamsPrefix(db, pairs, k);
    var before := AfterTeamAdds(db, pairs[..k]);
    assert |before.calls| == |db.calls| + k;
    assert Injected(before) == Some(db.faults[|db.calls| + k]);
    var added := AddTeamMember(before, pairs[k].team, pairs[k].user);
    assert added.out.Fail?;
    assert pairs[k..][0] == pairs[k];
    assert AddTeams(before, pairs[k..]) == added;
  }

  /** A failing team add ends CreateDefaultMemberships: no channel command is issued
      and the channel memberships are untouched. */
  lemma CreateDefaultMembershipsTeamAbort(db: Db, pairs: seq<TeamMember>, channelsToAdd: Result<seq<ChannelMember>>, k: nat)
    requires k < |pairs|
    requires forall j :: |db.calls| <= j < |db.calls| + k ==> j !in db.faults
    requires |db.calls| + k in db.faults
    ensures var a := CreateDefaultMemberships(db, Ok(pairs), channelsToAdd);
      && a.out == Fail(db.faults[|db.calls| + k])
      && a.db.calls == db.calls + TeamAddCalls(pairs[..k + 1])
      && a.db.teamMembers.Keys == db.teamMembers.Keys + Members(pairs[..k])
      && a.db.channelMembers == db.channelMembers
  {
    AddTeamsAbortAt(db, pairs, k);
    assert pairs[..k + 1][..k] == pairs[..k];
  }

  /** A channel known to the store whose user is on no team: the team membership is
      added before the channel add is issued. */
  lemma AddChannelTeamFirst(db: Db, cm: ChannelMember)
    requires cm.channel in db.channels
    requires TeamMember(db.channels[cm.channel], cm.user) !in db.teamMembers
    requires forall j :: |db.calls| <= j < |db.calls| + 3 ==> j !in db.faults
    ensures var team := db.channels[cm.channel];
            var a := AddChannel(db, cm);
      && a.db.calls == db.calls + [GetChannelCall(cm.channel), GetTeamMemberCall(team, cm.user),
                                   AddTeamMemberCall(team, cm.user), AddChannelMemberCall(cm.user, cm.channel)]
      && TeamMember(team, cm.user) in a.db.teamMembers
  {
  }

  /** Whatever fails, the channel add is issued only for a known channel whose team
      already counts the user as a member. */
  lemma AddChannelOnlyOnTeam(db: Db, cm: ChannelMember)
    ensures var a := AddChannel(db, cm);
      AddChannelMemberCall(cm.user, cm.channel) in a.db.calls[|db.calls|..] ==>
        && cm.channel in db.channels
        && TeamMember(db.channels[cm.channel], cm.user) in a.db.teamMembers
        && a.db.calls[|a.db.calls| - 1] == AddChannelMemberCall(cm.user, cm.channel)
  {
  }

  /** A failed channel lookup ends the pass with the lookup's own error (the injected
      one, else not-found), with nothing changed and no later pair attempted. */
  lemma AddChannelUnknownChannel(db: Db, cm: ChannelMember, rest: seq<ChannelMember>)
    requires |db.calls| in db.faults || cm.channel !in db.channels
    ensures var a := AddChannel(db, cm);
      && a.out == Fail(if |db.calls| in db.faults then db.faults[|db.calls|] else ChannelNotFound)
      && a.db == Issue(db, GetChannelCall(cm.channel))
      && AddChannels(db, [cm] + rest) == a
  {
    assert ([cm] + rest)[0] == cm;
  }

  /** A failed team-member lookup is tolerated only with the "missing" id, in which case
      the team add follows; any other id ends the pass with that error. */
  lemma AddChannelLookupFailure(db: Db, cm: ChannelMember, rest: seq<ChannelMember>)
    requires cm.channel in db.channels
    requires |db.calls| !in db.faults && |db.calls| + 1 in db.faults
    ensures var n := |db.calls|;
            var e := db.faults[n + 1];
            var team := db.channels[cm.channel];
            var a := AddChannel(db, cm);
      if e == MissingTeamMember then
        |a.db.calls| >= n + 3 && a.db.calls[n + 2] == AddTeamMemberCall(team, cm.user)
      else
        && a.out == Fail(e)
        && a.db.calls == db.calls + [GetChannelCall(cm.channel), GetTeamMemberCall(team, cm.user)]
        && a.db.teamMembers == db.teamMembers && a.db.channelMembers == db.channelMembers
        && AddChannels(db, [cm] + rest) == a
  {
    assert ([cm] + rest)[0] == cm;
  }

  /** When the channel add of a user already on the team fails, the step succeeds exactly
      when the id is "already left the team"; then the loop goes on with the next pair,
      and otherwise it stops with that error. */
  lemma AddChannelJoinRefused(db: Db, cm: ChannelMember, rest: seq<ChannelMember>)
    requires cm.channel in db.channels
    requires TeamMember(db.channels[cm.channel], cm.user) in db.teamMembers
    requires |db.calls| !in db.faults && |db.calls| + 1 !in db.faults && |db.calls| + 2 in db.faults
    ensures var e := db.faults[|db.calls| + 2];
            var a := AddChannel(db, cm);
      && a.out == (if e == DeletedFromTeam then Pass else Fail(e))
      && a.db.teamMembers == db.teamMembers && a.db.channelMembers == db.channelMembers
      && AddChannels(db, [cm] + rest) == if e == DeletedFromTeam then AddChannels(a.db, rest) else a
  {
    assert ([cm] + rest)[0] == cm && ([cm] + rest)[1..] == rest;
  }

  /** For a user not yet on the owning team, the team add comes first; if it fails, its
      error is returned, no membership changes and the loop ends there. */
  lemma AddChannelTeamAddFails(db: Db, cm: ChannelMember, rest: seq<ChannelMember>)
    requires cm.channel in db.channels
    requires TeamMember(db.channels[cm.channel], cm.user) !in db.teamMembers
    requires |db.calls| !in db.faults && |db.calls| + 1 !in db.faults && |db.calls| + 2 in db.faults
    ensures var team := db.channels[cm.channel];
            var a := AddChannel(db, cm);
      && a.out == Fail(db.faults[|db.calls| + 2])
      && a.db.calls == db.calls + [GetChannelCall(cm.channel), GetTeamMemberCall(team, cm.user),
                                   AddTeamMemberCall(team, cm.user)]
      && a.db.teamMembers == db.teamMembers && a.db.channelMembers == db.channelMembers
      && AddChannels(db, [cm] + rest) == a
  {
    assert ([cm] + rest)[0] == cm;
  }

  /** For a user added to the owning team first, a failed channel add is passed over
      exactly when its id is "already left the team"; then the loop goes on with the next
      pair with the team membership kept, and otherwise it stops with that error. */
  lemma AddChannelJoinRefusedAfterTeamAdd(db: Db, cm: ChannelMember, rest: seq<ChannelMember>)
    requires cm.channel in db.channels
    requires TeamMember(db.channels[cm.channel], cm.user) !in db.teamMembers
    requires forall j :: |db.calls| <= j < |db.calls| + 3 ==> j !in db.faults
    requires |db.calls| + 3 in db.faults
    ensures var e := db.faults[|db.calls| + 3];
            var team := db.channels[cm.channel];
            var a := AddChannel(db, cm);
      && a.out == (if e == DeletedFromTeam then Pass else Fail(e))
      && a.db.teamMembers.Keys == db.teamMembers.Keys + {TeamMember(team, cm.user)}
      && a.db.channelMembers == db.channelMembers
      && AddChannels(db, [cm] + rest) == if e == DeletedFromTeam then AddChannels(a.db, rest) else a
  {
    assert ([cm] + rest)[0] == cm && ([cm] + rest)[1..] == rest;
  }

  /** Joined is kept by every later state, and holds for any earlier start. */
  lemma JoinedPersists(db: Db, db': Db, start: nat, start': nat, cm: ChannelMember)
    requires Grows(db, db') && Joined(db, start', cm) && start <= start'
    ensures Joined(db', start, cm)
  {
    if cm !in db.channelMembers {
      var k :| start' <= k < |db.calls| && db.calls[k] == AddChannelMemberCall(cm.user, cm.channel)
               && k in db.faults && db.faults[k] == DeletedFromTeam;
      assert db'.calls[k] == db.calls[k];
    }
  }

  /** A successful channel step leaves the pair joined; if the pair is not a channel
      membership, it is this step's own channel add, its last command, that was refused
      as "already left the team". */
  lemma AddChannelJoins(db: Db, cm: ChannelMember)
    requires AddChannel(db, cm).out.Pass?
    ensures Joined(AddChannel(db, cm).db, |db.calls|, cm)
    ensures var a := AddChannel(db, cm);
            var last := |a.db.calls| - 1;
      cm !in a.db.channelMembers ==>
        && |db.calls| <= last && a.db.calls[last] == AddChannelMemberCall(cm.user, cm.channel)
        && last in db.faults && db.faults[last] == DeletedFromTeam
  {
    var channel := GetChannel(db, cm.channel);
    var team := channel.out.value;
    var tmem := GetTeamMember(channel.db, team, cm.user);
    var onTeam := if tmem.out.Fail? then AddTeamMember(tmem.db, team, cm.user) else tmem;
    var joined := AddChannelMember(onTeam.db, cm.user, cm.channel);
    assert TeamMember(team, cm.user) in onTeam.db.teamMembers;
    if joined.out.Fail? {
      var k := |onTeam.db.calls|;
      assert joined.db.calls[k] == AddChannelMemberCall(cm.user, cm.channel);
    }
  }

  /** A successful channel loop leaves every pair joined, a missing pair being excused
      only by a refusal issued by this loop. */
  lemma {:induction false} AddChannelsJoinAll(db: Db, pairs: seq<ChannelMember>)
    requires AddChannels(db, pairs).out.Pass?
    ensures forall cm :: cm in pairs ==> Joined(AddChannels(db, pairs).db, |db.calls|, cm)
    decreases |pairs|
  {
    if pairs != [] {
      var step := AddChannel(db, pairs[0]);
      AddChannelJoins(db, pairs[0]);
      AddChannelsJoinAll(step.db, pairs[1..]);
      var a := AddChannels(step.db, pairs[1..]);
      JoinedPersists(step.db, a.db, |db.calls|, |db.calls|, pairs[0]);
      forall cm | cm in pairs
        ensures Joined(a.db, |db.calls|, cm)
      {
        if cm != pairs[0] {
          assert cm in pairs[1..];
          JoinedPersists(a.db, a.db, |db.calls|, |step.db.calls|, cm);
        }
      }
    }
  }

  /** After a successful CreateDefaultMemberships every listed team pair is a team
      membership, and every listed channel pair is joined, a missing one being excused
      only by a refusal issued during this pass. */
  lemma CreateDefaultMembershipsSuccess(db: Db, teamsToAdd: Result<seq<TeamMember>>, channelsToAdd: Result<seq<ChannelMember>>)
    requires CreateDefaultMemberships(db, teamsToAdd, channelsToAdd).out.Pass?
    ensures teamsToAdd.Ok? && channelsToAdd.Ok?
    ensures var a := CreateDefaultMemberships(db, teamsToAdd, channelsToAdd);
      && Members(teamsToAdd.value) <= a.db.teamMembers.Keys
      && forall cm :: cm in channelsToAdd.value ==> Joined(a.db, |db.calls|, cm)
  {
    var teams := AddTeams(db, teamsToAdd.value);
    var a := AddChannels(teams.db, channelsToAdd.value);
    AddChannelsJoinAll(teams.db, channelsToAdd.value);
    forall cm | cm in channelsToAdd.value
      ensures Joined(a.db, |db.calls|, cm)
    {
      JoinedPersists(a.db, a.db, |db.calls|, |teams.db.calls|, cm);
    }
  }

  /** With no failure ahead, the team loop succeeds. */
  lemma {:induction false} AddTeamsFaultFree(db: Db, pairs: seq<TeamMember>)
    requires NoFaultsAhead(db)
    ensures AddTeams(db, pairs).out == Pass
    decreases |pairs|
  {
    if pairs != [] {
      AddTeamsFaultFree(AddTeamMember(db, pairs[0].team, pairs[0].user).db, pairs[1..]);
    }
  }

  /** With no failure ahead and every channel known, the channel loop succeeds and every
      pair becomes a channel membership. */
  lemma {:induction false} AddChannelsFaultFree(db: Db, pairs: seq<ChannelMember>)
    requires NoFaultsAhead(db)
    requires forall cm :: cm in pairs ==> cm.channel in db.channels
    ensures AddChannels(db, pairs).out == Pass
    ensures Members(pairs) <= AddChannels(db, pairs).db.channelMembers.Keys
    decreases |pairs|
  {
    if pairs != [] {
      var step := AddChannel(db, pairs[0]);
      assert step.out == Pass && pairs[0] in step.db.channelMembers;
      AddChannelsFaultFree(step.db, pairs[1..]);
      assert Members(pairs) == {pairs[0]} + Members(pairs[1..]);
    }
  }

  /** Two users on team "t" are to join channel "c" of that team; the first channel add
      is refused because the user has left the team. The pass still succeeds, and only
      the second user joins the channel. */
  lemma ToleratedRefusalScenario()
    ensures var db := Db(map[TeamMember("t", "u1") := false, TeamMember("t", "u2") := false], map[],
                         map["c" := "t"], [], map[2 := DeletedFromTeam]);
            var a := CreateDefaultMemberships(db, Ok([]), Ok([ChannelMember("c", "u1"), ChannelMember("c", "u2")]));
      && a.out == Pass
      && a.db.channelMembers == map[ChannelMember("c", "u2") := false]
      && a.db.teamMembers == db.teamMembers
      && |a.db.calls| == 6
  {
    var db := Db(map[TeamMember("t", "u1") := false, TeamMember("t", "u2") := false], map[],
                 map["c" := "t"], [], map[2 := DeletedFromTeam]);
    var pairs := [ChannelMember("c", "u1"), ChannelMember("c", "u2")];
    var first := AddChannel(db, pairs[0]);
    var refused := AddChannelMember(GetTeamMember(GetChannel(db, "c").db, "t", "u1").db, "u1", "c");
    assert refused.out == Fail(DeletedFromTeam) && refused.db == Issue(GetTeamMember(GetChannel(db, "c").db, "t", "u1").db, AddChannelMemberCall("u1", "c"));
    assert first == After(refused.db, Pass);
    assert first.db.channelMembers == map[] && |first.db.calls| == 3;
    var joined := AddChannelMember(GetTeamMember(GetChannel(first.db, "c").db, "t", "u2").db, "u2", "c");
    assert joined.out == Pass && joined.db.channelMembers.Keys == {ChannelMember("c", "u2")};
    assert joined.db.channelMembers == map[ChannelMember("c", "u2") := false];
    var second := AddChannel(first.db, pairs[1]);
    assert second == After(joined.db, Pass);
    assert pairs[1..] == [pairs[1]] && pairs[1..][1..] == [];
    assert AddChannels(db, pairs) == AddChannels(first.db, pairs[1..]);
  }

  lemma ExtendsSameKeys<K, V>(m: map<K, V>, m': map<K, V>)
    requires Extends(m, m') && m'.Keys <= m.Keys
    ensures m' == m
  {
    assert m'.Keys == m.Keys;
  }

  /** Running CreateDefaultMemberships again on the same candidate lists, with nothing
      failing, succeeds and changes no team membership and no admin flag; the only
      memberships it adds are the channel pairs the first run was refused, so when the
      first run joined every channel pair the second changes no membership at all. */
  lemma CreateDefaultMembershipsRerun(db: Db, teamsToAdd: Result<seq<TeamMember>>, channelsToAdd: Result<seq<ChannelMember>>)
    requires CreateDefaultMemberships(db, teamsToAdd, channelsToAdd).out.Pass?
    requires NoFaultsAhead(CreateDefaultMemberships(db, teamsToAdd, channelsToAdd).db)
    ensures var first := CreateDefaultMemberships(db, teamsToAdd, channelsToAdd).db;
            var second := CreateDefaultMemberships(first, teamsToAdd, channelsToAdd);
      && second.out == Pass
      && second.db.teamMembers == first.teamMembers
      && Extends(first.channelMembers, second.db.channelMembers)
      && second.db.channelMembers.Keys == first.channelMembers.Keys + Members(channelsToAdd.value)
      && (Members(channelsToAdd.value) <= first.channelMembers.Keys ==> second.db.channelMembers == first.channelMembers)
  {
    var first := CreateDefaultMemberships(db, teamsToAdd, channelsToAdd).db;
    CreateDefaultMembershipsSuccess(db, teamsToAdd, channelsToAdd);
    var teamPairs, channelPairs := teamsToAdd.value, channelsToAdd.value;
    var teams := AddTeams(first, teamPairs);
    AddTeamsFaultFree(first, teamPairs);
    ExtendsSameKeys(first.teamMembers, teams.db.teamMembers);
    var channels := AddChannels(teams.db, channelPairs);
    AddChannelsFaultFree(teams.db, channelPairs);
    assert OwnerMemberships(teams.db.channels, channelPairs) <= first.teamMembers.Keys;
    ExtendsSameKeys(first.teamMembers, channels.db.teamMembers);
    if Members(channelPairs) <= first.channelMembers.Keys {
      ExtendsSameKeys(first.channelMembers, channels.db.channelMembers);
    }
  }
}
