/** The application object of app/syncables.go: three passes that issue commands
    to the store one at a time, return the first fatal error and undo nothing.
    Each method is proved to leave the store in the state, and to return the
    error, that the corresponding function of `Reconcile` describes; the
    properties of those functions are proved in Additions, Removals and Roles. */
module Syncables {
  import opened Types
  import M = StoreModel
  import R = Reconcile
  import opened Persistence

  class App {
    const store: Store

    constructor (store: Store)
      ensures this.store == store
    {
      this.store := store;
    }

    /** Adds the team pairs, then the channel pairs (each after making sure of the
        owning team's membership); `teamsToAdd` and `channelsToAdd` are what the two
        candidate queries answered. */
    method CreateDefaultMemberships(teamsToAdd: Result<seq<TeamMember>>, channelsToAdd: Result<seq<ChannelMember>>)
      returns (err: Outcome)
      modifies store
      ensures M.After(store.State(), err) == R.CreateDefaultMemberships(old(store.State()), teamsToAdd, channelsToAdd)
    {
      ghost var db0 := store.State();
      if teamsToAdd.Err? {
        return Fail(teamsToAdd.id);
      }
      var teamMembers := teamsToAdd.value;
      var i := 0;
      while i < |teamMembers|
        invariant 0 <= i <= |teamMembers|
        invariant R.AddTeams(db0, teamMembers) == R.AddTeams(store.State(), teamMembers[i..])
      {
        var userTeam := teamMembers[i];
        assert teamMembers[i..][1..] == teamMembers[i + 1..];
        err := store.AddTeamMember(userTeam.team, userTeam.user);
        if err.Fail? {
          return;
        }
        i := i + 1;
      }

      if channelsToAdd.Err? {
        return Fail(channelsToAdd.id);
      }
      var channelMembers := channelsToAdd.value;
      ghost var db1 := store.State();
      assert R.CreateDefaultMemberships(db0, teamsToAdd, channelsToAdd) == R.AddChannels(db1, channelMembers);
      var j := 0;
      while j < |channelMembers|
        invariant 0 <= j <= |channelMembers|
        invariant R.AddChannels(db1, channelMembers) == R.AddChannels(store.State(), channelMembers[j..])
      {
        var userChannel := channelMembers[j];
        assert channelMembers[j..][1..] == channelMembers[j + 1..];
        ghost var before := store.State();
        var channel := store.GetChannel(userChannel.channel);
        if channel.Err? {
          return Fail(channel.id);
        }
        var tmem := store.GetTeamMember(channel.value, userChannel.user);
        if tmem.Fail? && tmem.id != MissingTeamMember {
          return tmem;
        }
        if tmem.Fail? {
          err := store.AddTeamMember(channel.value, userChannel.user);
          if err.Fail? {
            return;
          }
        }
        err := store.AddChannelMember(userChannel.user, userChannel.channel);
        if err.Fail? && err.id != DeletedFromTeam {
          return;
        }
        assert R.AddChannel(before, userChannel) == M.After(store.State(), Pass);
        j := j + 1;
      }
      err := Pass;
    }

    /** Removes the channel pairs (each after looking its channel up), then the team
        pairs; `channelsToRemove` and `teamsToRemove` are what the two candidate queries
        answered. */
    method DeleteGroupConstrainedMemberships(channelsToRemove: Result<seq<ChannelMember>>, teamsToRemove: Result<seq<TeamMember>>)
      returns (err: Outcome)
      modifies store
      ensures M.After(store.State(), err) == R.DeleteGroupConstrainedMemberships(old(store.State()), channelsToRemove, teamsToRemove)
    {
      ghost var db0 := store.State();
      if channelsToRemove.Err? {
        return Fail(channelsToRemove.id);
      }
      var channelMembers := channelsToRemove.value;
      var i := 0;
      while i < |channelMembers|
        invariant 0 <= i <= |channelMembers|
        invariant R.RemoveChannels(db0, channelMembers) == R.RemoveChannels(store.State(), channelMembers[i..])
      {
        var userChannel := channelMembers[i];
        assert channelMembers[i..][1..] == channelMembers[i + 1..];
        var channel := store.GetChannel(userChannel.channel);
        if channel.Err? {
          return Fail(channel.id);
        }
        err := store.RemoveUserFromChannel(userChannel.user, userChannel.channel);
        if err.Fail? {
          return;
        }
        i := i + 1;
      }

      if teamsToRemove.Err? {
        return Fail(teamsToRemove.id);
      }
      var teamMembers := teamsToRemove.value;
      ghost var db1 := store.State();
      var j := 0;
      while j < |teamMembers|
        invariant 0 <= j <= |teamMembers|
        invariant R.RemoveTeams(db1, teamMembers) == R.RemoveTeams(store.State(), teamMembers[j..])
      {
        var userTeam := teamMembers[j];
        assert teamMembers[j..][1..] == teamMembers[j + 1..];
        err := store.RemoveUserFromTeam(userTeam.team, userTeam.user);
        if err.Fail? {
          return;
        }
        j := j + 1;
      }
      err := Pass;
    }

    /** Picks the role store for `syncableType`, then grants admin to the members of the
        syncable in `permittedAdmins` (what the permitted-admins query answered) and
        revokes it from the rest. */
    method SyncSyncableRoles(syncableId: string, syncableType: SyncableType, permittedAdmins: Result<seq<UserId>>)
      returns (err: Outcome)
      modifies store
      ensures M.After(store.State(), err) == R.SyncSyncableRoles(old(store.State()), syncableId, syncableType, permittedAdmins)
    {
      if permittedAdmins.Err? {
        return Fail(permittedAdmins.id);
      }
      var admins := permittedAdmins.value;
      var updateStore: RoleStore;
      match syncableType {
        case TeamSyncable =>
          updateStore := TeamRoles;
        case ChannelSyncable =>
          updateStore := ChannelRoles;
        case UnknownSyncable(_) =>
          return Fail(UnsupportedSyncableType);
      }
      err := store.UpdateMembersRole(updateStore, syncableId, admins, Equals, true);
      if err.Fail? {
        return;
      }
      err := store.UpdateMembersRole(updateStore, syncableId, admins, NotEquals, false);
    }
  }
}
