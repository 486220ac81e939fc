/** Properties of DeleteGroupConstrainedMemberships
    (`Reconcile.DeleteGroupConstrainedMemberships`). */
module Removals {
  import opened Types
  import opened StoreModel
  import opened Reconcile

  /** The commands issued by the channel loop for `pairs` when none of them fails. */
  function ChannelRemovalCalls(pairs: seq<ChannelMember>): (calls: seq<Call>)
    ensures |calls| == 2 * |pairs|
  {
    if pairs == [] then []
    else
      var last := pairs[|pairs| - 1];
      ChannelRemovalCalls(pairs[..|pairs| - 1])
        + [GetChannelCall(last.channel), RemoveUserFromChannelCall(last.user, last.channel)]
  }

  /** The commands issued by the team loop for `pairs` when none of them fails. */
  function TeamRemovalCalls(pairs: seq<TeamMember>): (calls: seq<Call>)
    ensures |calls| == |pairs|
  {
    if pairs == [] then []
    else
      var last := pairs[|pairs| - 1];
      TeamRemovalCalls(pairs[..|pairs| - 1]) + [RemoveUserFromTeamCall(last.team, last.user)]
  }

  /** The state after the channel loop has removed every one of `pairs`. */
  function AfterChannelRemovals(db: Db, pairs: seq<ChannelMember>): (db': Db)
    ensures db'.channelMembers.Keys == db.channelMembers.Keys - Members(pairs)
    ensures Shrinks(db, db') && db'.teamMembers == db.teamMembers
  {
    db.(calls := db.calls + ChannelRemovalCalls(pairs), channelMembers := db.channelMembers - Members(pairs))
  }

  /** The state after the team loop has removed every one of `pairs`. */
  function AfterTeamRemovals(db: Db, pairs: seq<TeamMember>): (db': Db)
    ensures db'.teamMembers.Keys == db.teamMembers.Keys - Members(pairs)
    ensures Shrinks(db, db') && db'.channelMembers == db.channelMembers
  {
    db.(calls := db.calls + TeamRemovalCalls(pairs), teamMembers := db.teamMembers - Members(pairs))
  }

  /** One channel removal, for a known channel and without failure, is one more step of
      the closed form. */
  lemma AfterChannelRemovalsSnoc(db: Db, pairs: seq<ChannelMember>, p: ChannelMember)
    requires p.channel in db.channels
    requires |db.calls| + 2 * |pairs| !in db.faults && |db.calls| + 2 * |pairs| + 1 !in db.faults
    ensures RemoveChannel(AfterChannelRemovals(db, pairs), p) == After(AfterChannelRemovals(db, pairs + [p]), Pass)
  {
    assert (pairs + [p])[..|pairs|] == pairs;
    assert Members(pairs + [p]) == Members(pairs) + {p};
  }

  /** One team removal without failure is one more step of the closed form. */
  lemma AfterTeamRemovalsSnoc(db: Db, pairs: seq<TeamMember>, p: TeamMember)
    requires |db.calls| + |pairs| !in db.faults
    ensures RemoveUserFromTeam(AfterTeamRemovals(db, pairs), p.team, p.user) == After(AfterTeamRemovals(db, pairs + [p]), Pass)
  {
    assert (pairs + [p])[..|pairs|] == pairs;
    assert Members(pairs + [p]) == Members(pairs) + {p};
  }

  /** While the first `k` channels are known and none of their commands fails, the channel
      loop removes those pairs one after the other and carries on with the rest. */
  lemma {:induction false} RemoveChannelsPrefix(db: Db, pairs: seq<ChannelMember>, k: nat)
    requires k <= |pairs|
    requires forall j :: 0 <= j < k ==> pairs[j].channel in db.channels
    requires forall j :: |db.calls| <= j < |db.calls| + 2 * k ==> j !in db.faults
    ensures RemoveChannels(db, pairs) == RemoveChannels(AfterChannelRemovals(db, pairs[..k]), pairs[k..])
    decreases k
  {
    if k == 0 {
      assert pairs[..0] == [];
      assert AfterChannelRemovals(db, []) == db;
    } else {
      RemoveChannelsPrefix(db, pairs, k - 1);
      AfterChannelRemovalsSnoc(db, pairs[..k - 1], pairs[k - 1]);
      assert pairs[..k - 1] + [pairs[k - 1]] == pairs[..k];
      assert pairs[k - 1..][0] == pairs[k - 1] && pairs[k - 1..][1..] == pairs[k..];
    }
  }

  /** While none of the first `k` removals fails, the team loop removes those pairs one
      after the other and carries on with the rest. */
  lemma {:induction false} RemoveTeamsPrefix(db: Db, pairs: seq<TeamMember>, k: nat)
    requires k <= |pairs|
    requires forall j :: |db.calls| <= j < |db.calls| + k ==> j !in db.faults
    ensures RemoveTeams(db, pairs) == RemoveTeams(AfterTeamRemovals(db, pairs[..k]), pairs[k..])
    decreases k
  {
    if k == 0 {
      assert pairs[..0] == [];
      assert AfterTeamRemovals(db, []) == db;
    } else {
      RemoveTeamsPrefix(db, pairs, k - 1);
      AfterTeamRemovalsSnoc(db, pairs[..k - 1], pairs[k - 1]);
      assert pairs[..k - 1] + [pairs[k - 1]] == pairs[..k];
      assert pairs[k - 1..][0] == pairs[k - 1] && pairs[k - 1..][1..] == pairs[k..];
    }
  }

  /** A channel step fails exactly when its lookup or its removal fails; a failed lookup
      issues no removal. */
  lemma RemoveChannelFailure(db: Db, cm: ChannelMember)
    ensures var n := |db.calls|;
            var a := RemoveChannel(db, cm);
      && (a.out.Fail? <==> n in db.faults || cm.channel !in db.channels || n + 1 in db.faults)
      && (a.out.Fail? ==> a.out.id == if n in db.faults then db.faults[n]
                                      else if cm.channel !in db.channels then ChannelNotFound
                                      else db.faults[n + 1])
      && (n in db.faults || cm.channel !in db.channels ==> a.db == Issue(db, GetChannelCall(cm.channel)))
  {
  }

  /** If the k-th channel pair is the first whose step fails, the pass returns that
      step's error; the pairs before it stay removed, no team membership is touched and
      no later pair is attempted. */
  lemma RemoveChannelsAbortAt(db: Db, pairs: seq<ChannelMember>, k: nat)
    requires k < |pairs|
    requires forall j :: 0 <= j < k ==> pairs[j].channel in db.channels
    requires forall j :: |db.calls| <= j < |db.calls| + 2 * k ==> j !in db.faults
    requires RemoveChannel(AfterChannelRemovals(db, pairs[..k]), pairs[k]).out.Fail?
    ensures var before := AfterChannelRemovals(db, pairs[..k]);
            var a := RemoveChannels(db, pairs);
      && a == RemoveChannel(before, pairs[k])
      && a.db.channelMembers == db.channelMembers - Members(pairs[..k])
      && a.db.teamMembers == db.teamMembers
      && before.calls <= a.db.calls && |a.db.calls| <= |db.calls| + 2 * k + 2
  {
    RemoveChannelsPrefix(db, pairs, k);
    assert pairs[k..][0] == pairs[k];
  }

  /** If the removal of the k-th team pair is the first to fail, the pass returns that
      error; the pairs before it stay removed and no later pair is attempted. */
  lemma RemoveTeamsAbortAt(db: Db, pairs: seq<TeamMember>, k: nat)
    requires k < |pairs|
    requires forall j :: |db.calls| <= j < |db.calls| + k ==> j !in db.faults
    requires |db.calls| + k in db.faults
    ensures RemoveTeams(db, pairs)
         == After(Issue(AfterTeamRemovals(db, pairs[..k]), RemoveUserFromTeamCall(pairs[k].team, pairs[k].user)),
                  Fail(db.faults[|db.calls| + k]))
  {
    RemoveTeamsPrefix(db, pairs, k);
    var before := AfterTeamRemovals(db, pairs[..k]);
    assert |before.calls| == |db.calls| + k;
    assert Injected(before) == Some(db.faults[|db.calls| + k]);
    var removed := RemoveUserFromTeam(before, pairs[k].team, pairs[k].user);
    assert removed.out.Fail?;
    assert pairs[k..][0] == pairs[k];
    assert RemoveTeams(before, pairs[k..]) == removed;
  }

  /** After a successful channel loop no listed pair is a channel membership. */
  lemma {:induction false} RemoveChannelsClearsAll(db: Db, pairs: seq<ChannelMember>)
    requires RemoveChannels(db, pairs).out.Pass?
    ensures Members(pairs) !! RemoveChannels(db, pairs).db.channelMembers.Keys
    decreases |pairs|
  {
    if pairs != [] {
      var step := RemoveChannel(db, pairs[0]);
      RemoveChannelsClearsAll(step.db, pairs[1..]);
      assert Members(pairs) == {pairs[0]} + Members(pairs[1..]);
    }
  }

  /** After a successful team loop no listed pair is a team membership. */
  lemma {:induction false} RemoveTeamsClearsAll(db: Db, pairs: seq<TeamMember>)
    requires RemoveTeams(db, pairs).out.Pass?
    ensures Members(pairs) !! RemoveTeams(db, pairs).db.teamMembers.Keys
    decreases |pairs|
  {
    if pairs != [] {
      var step := RemoveUserFromTeam(db, pairs[0].team, pairs[0].user);
      RemoveTeamsClearsAll(step.db, pairs[1..]);
      assert Members(pairs) == {pairs[0]} + Members(pairs[1..]);
    }
  }

  lemma SubmapMinus<K, V>(m: map<K, V>, m': map<K, V>, s: set<K>)
    requires Extends(m', m)
    requires m.Keys - s <= m'.Keys && s !! m'.Keys
    ensures m' == m - s
  {
    assert m'.Keys == (m - s).Keys;
  }

  /** After a successful DeleteGroupConstrainedMemberships the memberships are exactly
      the former ones without the listed channel pairs and the listed team pairs, with
      the admin flags of the remaining ones unchanged. */
  lemma DeleteGroupConstrainedMembershipsSuccess(db: Db, channelsToRemove: Result<seq<ChannelMember>>, teamsToRemove: Result<seq<TeamMember>>)
    requires DeleteGroupConstrainedMemberships(db, channelsToRemove, teamsToRemove).out.Pass?
    ensures channelsToRemove.Ok? && teamsToRemove.Ok?
    ensures var a := DeleteGroupConstrainedMemberships(db, channelsToRemove, teamsToRemove);
      && a.db.channelMembers == db.channelMembers - Members(channelsToRemove.value)
      && a.db.teamMembers == db.teamMembers - Members(teamsToRemove.value)
  {
    var channels := RemoveChannels(db, channelsToRemove.value);
    RemoveChannelsClearsAll(db, channelsToRemove.value);
    var teams := RemoveTeams(channels.db, teamsToRemove.value);
    RemoveTeamsClearsAll(channels.db, teamsToRemove.value);
    SubmapMinus(db.channelMembers, teams.db.channelMembers, Members(channelsToRemove.value));
    SubmapMinus(db.teamMembers, teams.db.teamMembers, Members(teamsToRemove.value));
  }

  /** In one pass every channel removal is issued before any team removal, and a team
      removal is issued only once every listed channel pair has been removed. */
  lemma DeleteGroupConstrainedMembershipsOrder(db: Db, channelsToRemove: Result<seq<ChannelMember>>, teamsToRemove: Result<seq<TeamMember>>)
    ensures var calls := DeleteGroupConstrainedMemberships(db, channelsToRemove, teamsToRemove).db.calls;
      forall i, j ::
        (&& |db.calls| <= i < |calls| && |db.calls| <= j < |calls|
         && calls[i].RemoveUserFromChannelCall? && calls[j].RemoveUserFromTeamCall?) ==> i < j
    ensures var a := DeleteGroupConstrainedMemberships(db, channelsToRemove, teamsToRemove);
      forall j :: |db.calls| <= j < |a.db.calls| && a.db.calls[j].RemoveUserFromTeamCall? ==>
        && channelsToRemove.Ok?
        && RemoveChannels(db, channelsToRemove.value).out.Pass?
        && Members(channelsToRemove.value) !! a.db.channelMembers.Keys
  {
    if channelsToRemove.Ok? {
      var channels := RemoveChannels(db, channelsToRemove.value);
      if channels.out.Pass? {
        RemoveChannelsClearsAll(db, channelsToRemove.value);
      }
    }
  }
}
