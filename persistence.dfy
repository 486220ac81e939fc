/** The persistence layer as an object whose membership tables are updated in
    place. Every command appends itself to `calls` and fails without effect when
    `faults` holds an error id for its position; otherwise it performs one
    mutation. `State()` is the value this object stands for, and each method is
    proved to be the corresponding step of `StoreModel`. */
module Persistence {
  import opened Types
  import M = StoreModel

  class Store {
    var teamMembers: map<TeamMember, bool>
    var channelMembers: map<ChannelMember, bool>
    const channels: map<ChannelId, TeamId>
    var calls: seq<Call>
    const faults: map<nat, ErrorId>

    function State(): M.Db
      reads this
    {
      M.Db(teamMembers, channelMembers, channels, calls, faults)
    }

    constructor (teamMembers: map<TeamMember, bool>, channelMembers: map<ChannelMember, bool>,
                 channels: map<ChannelId, TeamId>, faults: map<nat, ErrorId>)
      ensures State() == M.Db(teamMembers, channelMembers, channels, [], faults)
    {
      this.teamMembers := teamMembers;
      this.channelMembers := channelMembers;
      this.channels := channels;
      this.calls := [];
      this.faults := faults;
    }

    /** Appends `c` to the trace and answers the failure injected into it, if any. */
    method Issue(c: Call) returns (fault: Option<ErrorId>)
      modifies this
      ensures fault == M.Injected(old(State()))
      ensures State() == M.Issue(old(State()), c)
    {
      var k := |calls|;
      calls := calls + [c];
      fault := if k in faults then Some(faults[k]) else None;
    }

    method GetChannel(channel: ChannelId) returns (r: Result<TeamId>)
      modifies this
      ensures M.After(State(), r) == M.GetChannel(old(State()), channel)
    {
      var fault := Issue(GetChannelCall(channel));
      if fault.Some? {
        r := Err(fault.value);
      } else if channel in channels {
        r := Ok(channels[channel]);
      } else {
        r := Err(ChannelNotFound);
      }
    }

    method GetTeamMember(team: TeamId, user: UserId) returns (r: Outcome)
      modifies this
      ensures M.After(State(), r) == M.GetTeamMember(old(State()), team, user)
    {
      var fault := Issue(GetTeamMemberCall(team, user));
      if fault.Some? {
        r := Fail(fault.value);
      } else if TeamMember(team, user) in teamMembers {
        r := Pass;
      } else {
        r := Fail(MissingTeamMember);
      }
    }

    method AddTeamMember(team: TeamId, user: UserId) returns (r: Outcome)
      modifies this
      ensures M.After(State(), r) == M.AddTeamMember(old(State()), team, user)
    {
      var fault := Issue(AddTeamMemberCall(team, user));
      if fault.Some? {
        return Fail(fault.value);
      }
      var m := TeamMember(team, user);
      if m !in teamMembers {
        teamMembers := teamMembers[m := false];
      }
      r := Pass;
    }

    method AddChannelMember(user: UserId, channel: ChannelId) returns (r: Outcome)
      modifies this
      ensures M.After(State(), r) == M.AddChannelMember(old(State()), user, channel)
    {
      var fault := Issue(AddChannelMemberCall(user, channel));
      if fault.Some? {
        return Fail(fault.value);
      }
      var m := ChannelMember(channel, user);
      if m !in channelMembers {
        channelMembers := channelMembers[m := false];
      }
      r := Pass;
    }

    method RemoveUserFromChannel(user: UserId, channel: ChannelId) returns (r: Outcome)
      modifies this
      ensures M.After(State(), r) == M.RemoveUserFromChannel(old(State()), user, channel)
    {
      var fault := Issue(RemoveUserFromChannelCall(user, channel));
      if fault.Some? {
        return Fail(fault.value);
      }
      channelMembers := channelMembers - {ChannelMember(channel, user)};
      r := Pass;
    }

    method RemoveUserFromTeam(team: TeamId, user: UserId) returns (r: Outcome)
      modifies this
      ensures M.After(State(), r) == M.RemoveUserFromTeam(old(State()), team, user)
    {
      var fault := Issue(RemoveUserFromTeamCall(team, user));
      if fault.Some? {
        return Fail(fault.value);
      }
      teamMembers := teamMembers - {TeamMember(team, user)};
      r := Pass;
    }

    method UpdateMembersRole(store: RoleStore, id: string, users: seq<UserId>, equality: Equality, admin: bool)
      returns (r: Outcome)
      modifies this
      ensures M.After(State(), r) == M.UpdateMembersRole(old(State()), store, id, users, equality, admin)
    {
      var fault := Issue(UpdateMembersRoleCall(store, id, users, equality, admin));
      if fault.Some? {
        return Fail(fault.value);
      }
      match store {
        case TeamRoles =>
          teamMembers := M.SetTeamRoles(teamMembers, id, users, equality, admin);
        case ChannelRoles =>
          channelMembers := M.SetChannelRoles(channelMembers, id, users, equality, admin);
      }
      r := Pass;
    }
  }
}
