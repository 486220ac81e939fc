/** The three reconciliation passes of app/syncables.go as functions on the
    persistence state: one function per loop body, one per loop, one per pass.
    The candidate lists and the permitted-admin list come from queries that are
    not part of this model; each is an input `Result`, so that the query's own
    failure is still a path through the pass. */
module Reconcile {
  import opened Types
  import opened StoreModel

  /** The team memberships that the channel loop may create for `pairs`: the user on
      the team that owns the channel. */
  function OwnerMemberships(channels: map<ChannelId, TeamId>, pairs: seq<ChannelMember>): set<TeamMember>
  {
    set cm | cm in pairs && cm.channel in channels :: TeamMember(channels[cm.channel], cm.user)
  }

  /** A channel add for `cm` issued at position `start` of the trace or later was
      answered with "already left the team". */
  ghost predicate Tolerated(db: Db, start: nat, cm: ChannelMember)
  {
    exists k :: start <= k < |db.calls| && db.calls[k] == AddChannelMemberCall(cm.user, cm.channel)
                && k in db.faults && db.faults[k] == DeletedFromTeam
  }

  /** What a successful channel step leaves behind: the channel exists, the user is a
      member of its team, and a member of the channel unless a channel add issued since
      position `start` was refused because the user had left the team. */
  ghost predicate Joined(db: Db, start: nat, cm: ChannelMember)
  {
    && cm.channel in db.channels
    && TeamMember(db.channels[cm.channel], cm.user) in db.teamMembers
    && (cm in db.channelMembers || Tolerated(db, start, cm))
  }

  // ---------------------------------------------------------------- additions

  /** The team loop of CreateDefaultMemberships: add each pair, stop at the first failure. */
  function AddTeams(db: Db, pairs: seq<TeamMember>): (a: After<Outcome>)
    ensures Grows(db, a.db) && a.db.channelMembers == db.channelMembers
    ensures a.db.teamMembers.Keys <= db.teamMembers.Keys + Members(pairs)
    ensures a.out.Pass? ==> Members(pairs) <= a.db.teamMembers.Keys
    decreases |pairs|
  {
    if pairs == [] then After(db, Pass)
    else
      var added := AddTeamMember(db, pairs[0].team, pairs[0].user);
      if added.out.Fail? then added
      else
        assert Members(pairs) == {pairs[0]} + Members(pairs[1..]);
        AddTeams(added.db, pairs[1..])
  }

  /** One iteration of the channel loop of CreateDefaultMemberships: resolve the channel,
      make sure the user is on the owning team (a missing membership is added first),
      then add the channel membership, tolerating only the "already left the team" refusal. */
  function AddChannel(db: Db, cm: ChannelMember): (a: After<Outcome>)
    ensures Grows(db, a.db)
    ensures a.db.teamMembers.Keys <= db.teamMembers.Keys + OwnerMemberships(db.channels, [cm])
    ensures a.db.channelMembers.Keys <= db.channelMembers.Keys + {cm}
  {
    var channel := GetChannel(db, cm.channel);
    if channel.out.Err? then After(channel.db, Fail(channel.out.id))
    else
      var team := channel.out.value;
      var tmem := GetTeamMember(channel.db, team, cm.user);
      if tmem.out.Fail? && tmem.out.id != MissingTeamMember then tmem
      else
        var onTeam := if tmem.out.Fail? then AddTeamMember(tmem.db, team, cm.user) else tmem;
        if onTeam.out.Fail? then onTeam
        else
          var joined := AddChannelMember(onTeam.db, cm.user, cm.channel);
          if joined.out.Fail? && joined.out.id != DeletedFromTeam then joined
          else After(joined.db, Pass)
  }

  /** The channel loop of CreateDefaultMemberships. */
  function AddChannels(db: Db, pairs: seq<ChannelMember>): (a: After<Outcome>)
    ensures Grows(db, a.db)
    ensures a.db.teamMembers.Keys <= db.teamMembers.Keys + OwnerMemberships(db.channels, pairs)
    ensures a.db.channelMembers.Keys <= db.channelMembers.Keys + Members(pairs)
    decreases |pairs|
  {
    if pairs == [] then After(db, Pass)
    else
      var step := AddChannel(db, pairs[0]);
      if step.out.Fail? then step
      else
        assert Members(pairs) == {pairs[0]} + Members(pairs[1..]);
        assert OwnerMemberships(db.channels, pairs)
            == OwnerMemberships(db.channels, [pairs[0]]) + OwnerMemberships(db.channels, pairs[1..]);
        AddChannels(step.db, pairs[1..])
  }

  /** CreateDefaultMemberships: the team pairs, then the channel pairs. */
  function CreateDefaultMemberships(db: Db, teamsToAdd: Result<seq<TeamMember>>, channelsToAdd: Result<seq<ChannelMember>>)
    : (a: After<Outcome>)
    ensures Grows(db, a.db)
  {
    match teamsToAdd
    case Err(e) => After(db, Fail(e))
    case Ok(teamPairs) =>
      var teams := AddTeams(db, teamPairs);
      if teams.out.Fail? then teams
      else
        match channelsToAdd
        case Err(e) => After(teams.db, Fail(e))
        case Ok(channelPairs) => AddChannels(teams.db, channelPairs)
  }

  // ----------------------------------------------------------------- removals

  predicate IsChannelRemovalCall(c: Call)
  {
    c.GetChannelCall? || c.RemoveUserFromChannelCall?
  }

  /** One iteration of the channel loop of DeleteGroupConstrainedMemberships. */
  function RemoveChannel(db: Db, cm: ChannelMember): (a: After<Outcome>)
    ensures Shrinks(db, a.db) && a.db.teamMembers == db.teamMembers
    ensures db.channelMembers.Keys - {cm} <= a.db.channelMembers.Keys
    ensures a.out.Pass? ==> cm !in a.db.channelMembers
    ensures a.out.Fail? ==> a.db.channelMembers == db.channelMembers
    ensures |a.db.calls| <= |db.calls| + 2
    ensures forall k :: |db.calls| <= k < |a.db.calls| ==> IsChannelRemovalCall(a.db.calls[k])
  {
    var channel := GetChannel(db, cm.channel);
    if channel.out.Err? then After(channel.db, Fail(channel.out.id))
    else RemoveUserFromChannel(channel.db, cm.user, cm.channel)
  }

  /** The channel loop of DeleteGroupConstrainedMemberships: remove each pair, stop at the
      first failure. */
  function RemoveChannels(db: Db, pairs: seq<ChannelMember>): (a: After<Outcome>)
    ensures Shrinks(db, a.db) && a.db.teamMembers == db.teamMembers
    ensures db.channelMembers.Keys - Members(pairs) <= a.db.channelMembers.Keys
    ensures forall k :: |db.calls| <= k < |a.db.calls| ==> IsChannelRemovalCall(a.db.calls[k])
    decreases |pairs|
  {
    if pairs == [] then After(db, Pass)
    else
      var step := RemoveChannel(db, pairs[0]);
      if step.out.Fail? then step
      else
        assert Members(pairs) == {pairs[0]} + Members(pairs[1..]);
        RemoveChannels(step.db, pairs[1..])
  }

  /** The team loop of DeleteGroupConstrainedMemberships. */
  function RemoveTeams(db: Db, pairs: seq<TeamMember>): (a: After<Outcome>)
    ensures Shrinks(db, a.db) && a.db.channelMembers == db.channelMembers
    ensures db.teamMembers.Keys - Members(pairs) <= a.db.teamMembers.Keys
    ensures forall k :: |db.calls| <= k < |a.db.calls| ==> a.db.calls[k].RemoveUserFromTeamCall?
    decreases |pairs|
  {
    if pairs == [] then After(db, Pass)
    else
      var step := RemoveUserFromTeam(db, pairs[0].team, pairs[0].user);
      if step.out.Fail? then step
      else
        assert Members(pairs) == {pairs[0]} + Members(pairs[1..]);
        RemoveTeams(step.db, pairs[1..])
  }

  /** DeleteGroupConstrainedMemberships: every channel pair, then every team pair. */
  function DeleteGroupConstrainedMemberships(db: Db, channelsToRemove: Result<seq<ChannelMember>>, teamsToRemove: Result<seq<TeamMember>>)
    : (a: After<Outcome>)
    ensures Shrinks(db, a.db)
  {
    match channelsToRemove
    case Err(e) => After(db, Fail(e))
    case Ok(channelPairs) =>
      var channels := RemoveChannels(db, channelPairs);
      if channels.out.Fail? then channels
      else
        match teamsToRemove
        case Err(e) => After(channels.db, Fail(e))
        case Ok(teamPairs) => RemoveTeams(channels.db, teamPairs)
  }

  // -------------------------------------------------------------------- roles

  /** The role store whose bulk update serves a syncable type; none for an unsupported type. */
  function RoleUpdater(syncableType: SyncableType): (r: Option<RoleStore>)
    ensures r.None? <==> syncableType.UnknownSyncable?
    ensures r == Some(TeamRoles) <==> syncableType == TeamSyncable
  {
    match syncableType
    case TeamSyncable => Some(TeamRoles)
    case ChannelSyncable => Some(ChannelRoles)
    case UnknownSyncable(_) => None
  }

  /** SyncSyncableRoles: grant admin to the permitted members of the syncable, then
      revoke it from the others. */
  function SyncSyncableRoles(db: Db, id: string, syncableType: SyncableType, permittedAdmins: Result<seq<UserId>>)
    : (a: After<Outcome>)
    ensures a.db.teamMembers.Keys == db.teamMembers.Keys && a.db.channelMembers.Keys == db.channelMembers.Keys
    ensures a.db.channels == db.channels && a.db.faults == db.faults && db.calls <= a.db.calls
  {
    match permittedAdmins
    case Err(e) => After(db, Fail(e))
    case Ok(admins) =>
      match RoleUpdater(syncableType)
      case None => After(db, Fail(UnsupportedSyncableType))
      case Some(store) =>
        var granted := UpdateMembersRole(db, store, id, admins, Equals, true);
        if granted.out.Fail? then granted
        else UpdateMembersRole(granted.db, store, id, admins, NotEquals, false)
  }
}
