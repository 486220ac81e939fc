/** Identifiers, error ids and the commands that the reconcilers issue to the
    persistence layer. */
module Types {

  type UserId = string
  type TeamId = string
  type ChannelId = string

  /** Only the `Id` of an application error steers control flow. */
  type ErrorId = string

  /** Returned by the team-member lookup when the user holds no membership on the team. */
  const MissingTeamMember: ErrorId := "store.sql_team.get_member.missing.app_error"

  /** Returned by the channel add when the user has already left the channel's team. */
  const DeletedFromTeam: ErrorId := "api.channel.add_user.to.channel.failed.deleted.app_error"

  /** Returned by the role synchronizer for a syncable type it has no role store for. */
  const UnsupportedSyncableType: ErrorId := "groups.unsupported_syncable_type"

  /** Returned by the channel lookup for an unknown channel id. */
  const ChannelNotFound: ErrorId := "app.channel.get.existing.app_error"

  datatype Option<T> = None | Some(value: T)

  /** The `*model.AppError` result of an operation: nil, or an error with an id. */
  datatype Outcome = Pass | Fail(id: ErrorId)

  /** A value, or an error with an id. */
  datatype Result<T> = Ok(value: T) | Err(id: ErrorId)

  datatype TeamMember = TeamMember(team: TeamId, user: UserId)
  datatype ChannelMember = ChannelMember(channel: ChannelId, user: UserId)

  /** The group syncable type a role synchronization is asked for. `UnknownSyncable`
      carries any other type name; "Team" and "Channel" are always the first two
      variants, as `SyncableTypeOf` builds them. */
  datatype SyncableType = TeamSyncable | ChannelSyncable | UnknownSyncable(name: string)

  /** The syncable type named by `name`: "Team" and "Channel" are the supported ones. */
  function SyncableTypeOf(name: string): (t: SyncableType)
    ensures t == TeamSyncable <==> name == "Team"
    ensures t == ChannelSyncable <==> name == "Channel"
    ensures t.UnknownSyncable? ==> t.name == name && name != "Team" && name != "Channel"
  {
    if name == "Team" then TeamSyncable
    else if name == "Channel" then ChannelSyncable
    else UnknownSyncable(name)
  }

  /** Whether a bulk role update selects the users in the list or those outside it. */
  datatype Equality = Equals | NotEquals

  /** The two implementations of the bulk role update: on team members and on channel members. */
  datatype RoleStore = TeamRoles | ChannelRoles

  /** One command issued to the persistence layer, in the order issued. */
  datatype Call =
    | GetChannelCall(channel: ChannelId)
    | GetTeamMemberCall(team: TeamId, user: UserId)
    | AddTeamMemberCall(team: TeamId, user: UserId)
    | AddChannelMemberCall(user: UserId, channel: ChannelId)
    | RemoveUserFromChannelCall(user: UserId, channel: ChannelId)
    | RemoveUserFromTeamCall(team: TeamId, user: UserId)
    | UpdateMembersRoleCall(store: RoleStore, syncable: string, users: seq<UserId>, equality: Equality, admin: bool)

  /** The set of elements of a list. */
  function Members<T>(s: seq<T>): set<T>
  {
    set x | x in s
  }

  /** Every key of `m` is a key of `m'` with the same value. */
  ghost predicate Extends<K, V>(m: map<K, V>, m': map<K, V>)
  {
    forall k :: k in m ==> k in m' && m'[k] == m[k]
  }
}
