/** The persistence boundary as a value: memberships with their admin flag,
    the channel-to-team map, the trace of commands issued so far, and the
    injected failures. Each command is one step on this value. */
module StoreModel {
  import opened Types

  /** `teamMembers` and `channelMembers` map each membership to its SchemeAdmin flag.
      `faults[k]`, when present, is the error id with which the k-th command
      issued (counting from the start of `calls`) fails, without effect. */
  datatype Db = Db(
    teamMembers: map<TeamMember, bool>,
    channelMembers: map<ChannelMember, bool>,
    channels: map<ChannelId, TeamId>,
    calls: seq<Call>,
    faults: map<nat, ErrorId>)

  /** The state after a command together with what the command answered. */
  datatype After<T> = After(db: Db, out: T)

  /** The failure injected into the next command, if any. */
  function Injected(db: Db): Option<ErrorId>
  {
    if |db.calls| in db.faults then Some(db.faults[|db.calls|]) else None
  }

  /** Records `c` as issued. */
  function Issue(db: Db, c: Call): (db': Db)
    ensures db'.calls == db.calls + [c]
    ensures db'.teamMembers == db.teamMembers && db'.channelMembers == db.channelMembers
    ensures db'.channels == db.channels && db'.faults == db.faults
  {
    db.(calls := db.calls + [c])
  }

  /** The memberships of `db'` are those of `db` or more, with unchanged flags;
      the channels and the injected failures are the same; the trace only grows. */
  ghost predicate Grows(db: Db, db': Db)
  {
    && Extends(db.teamMembers, db'.teamMembers)
    && Extends(db.channelMembers, db'.channelMembers)
    && db'.channels == db.channels
    && db'.faults == db.faults
    && db.calls <= db'.calls
  }

  /** The memberships of `db'` are those of `db` or fewer, with unchanged flags;
      the channels and the injected failures are the same; the trace only grows. */
  ghost predicate Shrinks(db: Db, db': Db)
  {
    && Extends(db'.teamMembers, db.teamMembers)
    && Extends(db'.channelMembers, db.channelMembers)
    && db'.channels == db.channels
    && db'.faults == db.faults
    && db.calls <= db'.calls
  }

  /** Looks up a channel; answers its owning team. */
  function GetChannel(db: Db, channel: ChannelId): (a: After<Result<TeamId>>)
    ensures a.db == Issue(db, GetChannelCall(channel))
    ensures a.out.Ok? <==> Injected(db).None? && channel in db.channels
    ensures a.out.Ok? ==> a.out.value == db.channels[channel]
    ensures a.out.Err? ==> a.out.id == if Injected(db).Some? then Injected(db).value else ChannelNotFound
  {
    var db' := Issue(db, GetChannelCall(channel));
    match Injected(db)
    case Some(e) => After(db', Err(e))
    case None =>
      if channel in db.channels then After(db', Ok(db.channels[channel]))
      else After(db', Err(ChannelNotFound))
  }

  /** Looks up a team membership; passes exactly when it exists (and no failure is
      injected), and otherwise reports it missing. */
  function GetTeamMember(db: Db, team: TeamId, user: UserId): (a: After<Outcome>)
    ensures a.db == Issue(db, GetTeamMemberCall(team, user))
    ensures a.out.Pass? <==> Injected(db).None? && TeamMember(team, user) in db.teamMembers
    ensures a.out.Fail? ==> a.out.id == if Injected(db).Some? then Injected(db).value else MissingTeamMember
  {
    var db' := Issue(db, GetTeamMemberCall(team, user));
    match Injected(db)
    case Some(e) => After(db', Fail(e))
    case None =>
      if TeamMember(team, user) in db.teamMembers then After(db', Pass)
      else After(db', Fail(MissingTeamMember))
  }

  /** Adds a team membership (a non-admin one, if it did not exist yet). */
  function AddTeamMember(db: Db, team: TeamId, user: UserId): (a: After<Outcome>)
    ensures a.db.calls == db.calls + [AddTeamMemberCall(team, user)]
    ensures a.out.Pass? <==> Injected(db).None?
    ensures a.out.Fail? ==> a.out == Fail(Injected(db).value) && a.db == Issue(db, AddTeamMemberCall(team, user))
    ensures a.out.Pass? ==> a.db.teamMembers.Keys == db.teamMembers.Keys + {TeamMember(team, user)}
    ensures a.out.Pass? && TeamMember(team, user) !in db.teamMembers ==> !a.db.teamMembers[TeamMember(team, user)]
    ensures a.db.channelMembers == db.channelMembers
    ensures Grows(db, a.db)
  {
    var db' := Issue(db, AddTeamMemberCall(team, user));
    var m := TeamMember(team, user);
    match Injected(db)
    case Some(e) => After(db', Fail(e))
    case None =>
      if m in db.teamMembers then After(db', Pass)
      else After(db'.(teamMembers := db.teamMembers[m := false]), Pass)
  }

  /** Adds a channel membership (a non-admin one, if it did not exist yet). */
  function AddChannelMember(db: Db, user: UserId, channel: ChannelId): (a: After<Outcome>)
    ensures a.db.calls == db.calls + [AddChannelMemberCall(user, channel)]
    ensures a.out.Pass? <==> Injected(db).None?
    ensures a.out.Fail? ==> a.out == Fail(Injected(db).value) && a.db == Issue(db, AddChannelMemberCall(user, channel))
    ensures a.out.Pass? ==> a.db.channelMembers.Keys == db.channelMembers.Keys + {ChannelMember(channel, user)}
    ensures a.out.Pass? && ChannelMember(channel, user) !in db.channelMembers ==> !a.db.channelMembers[ChannelMember(channel, user)]
    ensures a.db.teamMembers == db.teamMembers
    ensures Grows(db, a.db)
  {
    var db' := Issue(db, AddChannelMemberCall(user, channel));
    var m := ChannelMember(channel, user);
    match Injected(db)
    case Some(e) => After(db', Fail(e))
    case None =>
      if m in db.channelMembers then After(db', Pass)
      else After(db'.(channelMembers := db.channelMembers[m := false]), Pass)
  }

  /** Removes a channel membership (if it exists). */
  function RemoveUserFromChannel(db: Db, user: UserId, channel: ChannelId): (a: After<Outcome>)
    ensures a.db.calls == db.calls + [RemoveUserFromChannelCall(user, channel)]
    ensures a.out.Pass? <==> Injected(db).None?
    ensures a.out.Fail? ==> a.out == Fail(Injected(db).value) && a.db == Issue(db, RemoveUserFromChannelCall(user, channel))
    ensures a.out.Pass? ==> a.db.channelMembers.Keys == db.channelMembers.Keys - {ChannelMember(channel, user)}
    ensures a.db.teamMembers == db.teamMembers
    ensures Shrinks(db, a.db)
  {
    var db' := Issue(db, RemoveUserFromChannelCall(user, channel));
    match Injected(db)
    case Some(e) => After(db', Fail(e))
    case None => After(db'.(channelMembers := db.channelMembers - {ChannelMember(channel, user)}), Pass)
  }

  /** Removes a team membership (if it exists). */
  function RemoveUserFromTeam(db: Db, team: TeamId, user: UserId): (a: After<Outcome>)
    ensures a.db.calls == db.calls + [RemoveUserFromTeamCall(team, user)]
    ensures a.out.Pass? <==> Injected(db).None?
    ensures a.out.Fail? ==> a.out == Fail(Injected(db).value) && a.db == Issue(db, RemoveUserFromTeamCall(team, user))
    ensures a.out.Pass? ==> a.db.teamMembers.Keys == db.teamMembers.Keys - {TeamMember(team, user)}
    ensures a.db.channelMembers == db.channelMembers
    ensures Shrinks(db, a.db)
  {
    var db' := Issue(db, RemoveUserFromTeamCall(team, user));
    match Injected(db)
    case Some(e) => After(db', Fail(e))
    case None => After(db'.(teamMembers := db.teamMembers - {TeamMember(team, user)}), Pass)
  }

  /** Whether a bulk role update in mode `equality` over `users` selects `user`. */
  predicate Selects(equality: Equality, users: seq<UserId>, user: UserId)
  {
    match equality
    case Equals => user in users
    case NotEquals => user !in users
  }

  /** The team memberships after setting the flag to `admin` on the selected members of `team`. */
  function SetTeamRoles(m: map<TeamMember, bool>, team: TeamId, users: seq<UserId>, equality: Equality, admin: bool): map<TeamMember, bool>
  {
    map k | k in m :: if k.team == team && Selects(equality, users, k.user) then admin else m[k]
  }

  /** The channel memberships after setting the flag to `admin` on the selected members of `channel`. */
  function SetChannelRoles(m: map<ChannelMember, bool>, channel: ChannelId, users: seq<UserId>, equality: Equality, admin: bool): map<ChannelMember, bool>
  {
    map k | k in m :: if k.channel == channel && Selects(equality, users, k.user) then admin else m[k]
  }

  /** The bulk role update of one role store, scoped to the syncable `id`: sets the
      admin flag of the members of `id` that `equality` selects and leaves every other
      flag and every membership as it was. */
  function UpdateMembersRole(db: Db, store: RoleStore, id: string, users: seq<UserId>, equality: Equality, admin: bool): (a: After<Outcome>)
    ensures a.db.calls == db.calls + [UpdateMembersRoleCall(store, id, users, equality, admin)]
    ensures a.out.Pass? <==> Injected(db).None?
    ensures a.out.Fail? ==> a.out == Fail(Injected(db).value) && a.db == Issue(db, UpdateMembersRoleCall(store, id, users, equality, admin))
    ensures a.db.teamMembers.Keys == db.teamMembers.Keys && a.db.channelMembers.Keys == db.channelMembers.Keys
    ensures a.db.channels == db.channels && a.db.faults == db.faults
    ensures store == ChannelRoles || a.out.Fail? ==> a.db.teamMembers == db.teamMembers
    ensures store == TeamRoles || a.out.Fail? ==> a.db.channelMembers == db.channelMembers
    ensures store == TeamRoles && a.out.Pass? ==>
      forall k :: k in db.teamMembers ==>
        a.db.teamMembers[k] == if k.team == id && Selects(equality, users, k.user) then admin else db.teamMembers[k]
    ensures store == ChannelRoles && a.out.Pass? ==>
      forall k :: k in db.channelMembers ==>
        a.db.channelMembers[k] == if k.channel == id && Selects(equality, users, k.user) then admin else db.channelMembers[k]
  {
    var db' := Issue(db, UpdateMembersRoleCall(store, id, users, equality, admin));
    match Injected(db)
    case Some(e) => After(db', Fail(e))
    case None =>
      match store
      case TeamRoles => After(db'.(teamMembers := SetTeamRoles(db.teamMembers, id, users, equality, admin)), Pass)
      case ChannelRoles => After(db'.(channelMembers := SetChannelRoles(db.channelMembers, id, users, equality, admin)), Pass)
  }
}
