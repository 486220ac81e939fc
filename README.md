# Group-driven membership reconciliation (app/syncables.go)

This project models the three passes that keep team and channel memberships in
line with the groups attached to them ("syncables" are teams and channels):

- **CreateDefaultMemberships** adds every (team, user) pair the candidate query
  returns. It then adds every (channel, user) pair. Before each channel add it
  looks the channel up and makes sure the user is a member of the owning team,
  adding that team membership first when the lookup says it is missing. It
  stops at the first error. One error is the exception: a channel add refused
  because the user has already left the team
  (`api.channel.add_user.to.channel.failed.deleted.app_error`) is passed over.
- **DeleteGroupConstrainedMemberships** removes the listed channel memberships,
  each after looking its channel up. It then removes the listed team
  memberships. It stops at the first error.
- **SyncSyncableRoles** picks the role store for the syncable type, Team or
  Channel. It rejects any other type. It then issues two bulk updates scoped to
  the syncable: admin = true for the permitted users ("Equals"), then
  admin = false for everyone else ("NotEquals").

None of the passes undoes anything on failure.

The persistence layer is an in-memory store. It holds the team memberships and
the channel memberships, each mapped to its SchemeAdmin flag, and the
channel → owning-team map. Two more fields make failures and ordering visible:

- `calls` is the trace of every command issued.
- `faults` is an injected oracle. `faults[k]` is the error id with which the k-th
  command fails, and a failing command has no effect.

The store exists twice:

- `StoreModel.Db` is the store as a value, with one function per command.
- `Persistence.Store` is a class with the same fields. Its methods update the
  fields in place, and each method is proved to be the matching `StoreModel`
  step.

`Reconcile` states each pass as a function on `Db`: one function per loop body,
one per loop and one per pass. The class `Syncables.App` holds the three passes
as methods, with the same loops and early returns as the source. Each method is
proved to return the error, and to leave the store in the state, that its
`Reconcile` function gives. The loop invariant says that the rest of the list,
run from the current state, ends where the whole list run from the initial state
ends. `Additions`, `Removals` and `Roles` prove the properties of the `Reconcile`
functions: what holds on success, which failures are tolerated, the order of the
commands, and where a pass stops without rollback. Some are stated against
closed forms such as `AfterTeamAdds` and `AfterChannelRemovals`, which give the
state after a prefix of the list has been processed.

One point of the code's behaviour is easy to miss, and one consequence of the
model's failure injection needs stating:

- **Query before type check.** SyncSyncableRoles runs the permitted-admins query
  before it checks the syncable type (app/syncables.go:133-153). An unsupported
  type therefore performs no write but does read. If that query fails, its error
  is returned instead of the unsupported-type error.
- **Re-running, as modelled.** In the code, the "already left the team" refusal
  comes from the user's state, so it would recur on a second run with the same
  lists. In the model it is an injected failure that does not depend on the store.
  A fault-free second run therefore joins a pair that the first run passed over.
  `Additions.CreateDefaultMembershipsRerun` proves what the model supports. A second
  CreateDefaultMemberships without failures changes no team membership and no admin
  flag. If the first run joined every channel pair, it changes no membership at all.

## Model

| member | source | states |
|---|---|---|
| Types.SyncableTypeOf | app/syncables.go:146-150 | the type names "Team" and "Channel", and only those, are the supported syncable types; any other name is carried as unsupported |
| StoreModel.GetChannel | app/syncables.go:42-45 | the channel lookup answers the owning team exactly when the channel exists and no failure is injected; otherwise it fails with the injected id or a not-found id; it changes nothing but the trace |
| StoreModel.GetTeamMember | app/syncables.go:47-50 | the team-member lookup succeeds exactly when the membership exists and no failure is injected; without an injected failure it reports `store.sql_team.get_member.missing.app_error` |
| StoreModel.AddTeamMember | app/syncables.go:25-28 | on success the team memberships are the old ones plus the pair, a new membership non-admin and existing admin flags untouched; on failure nothing but the trace changes and the injected id is returned |
| StoreModel.AddChannelMember | app/syncables.go:64-65 | on success the channel memberships are the old ones plus the pair, a new membership non-admin and existing flags untouched; team memberships are never touched; on failure only the trace changes |
| StoreModel.RemoveUserFromChannel | app/syncables.go:99-102 | on success the channel memberships are the old ones minus the pair; team memberships are never touched; on failure only the trace changes |
| StoreModel.RemoveUserFromTeam | app/syncables.go:116-119 | on success the team memberships are the old ones minus the pair; channel memberships are never touched; on failure only the trace changes |
| StoreModel.UpdateMembersRole | app/syncables.go:155-163 | the bulk update of one role store sets the flag of exactly the members of the given syncable that the equality mode selects; no membership appears or disappears and the other store is untouched |
| Persistence.Store.GetChannel | app/syncables.go:42 | the in-place lookup is the `StoreModel.GetChannel` step on the store's state |
| Persistence.Store.GetTeamMember | app/syncables.go:47 | the in-place lookup is the `StoreModel.GetTeamMember` step |
| Persistence.Store.AddTeamMember | app/syncables.go:25 | the in-place add is the `StoreModel.AddTeamMember` step |
| Persistence.Store.AddChannelMember | app/syncables.go:64 | the in-place add is the `StoreModel.AddChannelMember` step |
| Persistence.Store.RemoveUserFromChannel | app/syncables.go:99 | the in-place removal is the `StoreModel.RemoveUserFromChannel` step |
| Persistence.Store.RemoveUserFromTeam | app/syncables.go:116 | the in-place removal is the `StoreModel.RemoveUserFromTeam` step |
| Persistence.Store.UpdateMembersRole | app/syncables.go:155-163 | the in-place bulk update is the `StoreModel.UpdateMembersRole` step |
| Reconcile.AddTeams | app/syncables.go:24-34 | the team loop only adds memberships, only listed ones, keeps every admin flag and channel membership, and on success every listed pair is a team membership |
| Reconcile.AddChannel | app/syncables.go:41-80 | one channel step only adds memberships: at most the user on the channel's owning team and the listed channel pair |
| Reconcile.AddChannels | app/syncables.go:41-80 | the channel loop only adds memberships, and only owning-team memberships of listed users and listed channel pairs |
| Reconcile.CreateDefaultMemberships | app/syncables.go:18-83 | the pass never removes a membership, changes an admin flag or rewrites the trace |
| Reconcile.RemoveChannel | app/syncables.go:94-102 | one removal step only removes the listed channel pair, does so on success, changes nothing on failure and issues only lookup and channel-removal commands |
| Reconcile.RemoveChannels | app/syncables.go:93-108 | the channel loop removes only listed channel pairs, never touches team memberships, and issues only channel lookups and channel removals |
| Reconcile.RemoveTeams | app/syncables.go:115-125 | the team loop removes only listed team pairs, never touches channel memberships, and issues only team removals |
| Reconcile.DeleteGroupConstrainedMemberships | app/syncables.go:87-128 | the pass never adds a membership or changes an admin flag |
| Reconcile.RoleUpdater | app/syncables.go:144-153 | a role store is chosen exactly for the Team and Channel types, the team store exactly for Team |
| Reconcile.SyncSyncableRoles | app/syncables.go:132-166 | the pass never adds or removes a membership |
| Syncables.App.CreateDefaultMemberships | app/syncables.go:18-83 | the loops return the error and leave the store in the state that `Reconcile.CreateDefaultMemberships` gives |
| Syncables.App.DeleteGroupConstrainedMemberships | app/syncables.go:87-128 | the loops return the error and leave the store in the state that `Reconcile.DeleteGroupConstrainedMemberships` gives |
| Syncables.App.SyncSyncableRoles | app/syncables.go:132-166 | the dispatch and the two updates return the error and leave the store in the state that `Reconcile.SyncSyncableRoles` gives |
| Additions.AddTeamsPrefix | app/syncables.go:24-34 | while none of the first k adds fails, the team loop has added exactly those pairs, in order, and goes on with the rest |
| Additions.AddTeamsAllAdded | app/syncables.go:24-34 | without failures the team loop succeeds with exactly the listed pairs added, the new ones non-admin |
| Additions.AddTeamsAbortAt | app/syncables.go:24-28 | when the add of the k-th pair is the first to fail, that error is returned, pairs before k stay added and no later pair is attempted |
| Additions.CreateDefaultMembershipsTeamAbort | app/syncables.go:24-39 | a failing team add ends the pass: no channel command is issued and channel memberships are untouched |
| Additions.AddChannelTeamFirst | app/syncables.go:47-64 | for a user on no team of the channel, the team add is issued before the channel add and the user ends on the team |
| Additions.AddChannelOnlyOnTeam | app/syncables.go:52-64 | the channel add is issued only for a known channel, as the step's last command, and with the user on the owning team |
| Additions.AddChannelUnknownChannel | app/syncables.go:42-45 | a failed channel lookup returns its own error (the injected one, else not-found), issues nothing but the lookup, and ends the channel loop there |
| Additions.AddChannelLookupFailure | app/syncables.go:47-50 | a failed team-member lookup is tolerated exactly when its id is the "missing" id, and then the team add follows; any other id is returned with nothing changed and ends the channel loop there |
| Additions.AddChannelJoinRefused | app/syncables.go:64-74 | for a user already on the owning team, a failed channel add is passed over exactly when its id is the "already left the team" id, and the loop goes on with the next pair; any other id ends the pass |
| Additions.AddChannelTeamAddFails | app/syncables.go:53-57 | for a user not on the owning team, a failing team add inside the channel loop returns its error after exactly three commands, changes no membership and ends the pass |
| Additions.AddChannelJoinRefusedAfterTeamAdd | app/syncables.go:53-74 | for a user first added to the owning team, a failed channel add is passed over exactly when its id is the "already left the team" id, the team membership staying added and the loop going on; any other id ends the pass |
| Additions.ToleratedRefusalScenario | app/syncables.go:64-74 | in a concrete case where the first of two channel adds is refused as "already left the team", the pass still succeeds and only the second user joins the channel |
| Additions.AddChannelJoins | app/syncables.go:41-80 | after a successful step the user is on the owning team and in the channel, unless this step's own channel add, its last command, was refused as "already left the team" |
| Additions.AddChannelsJoinAll | app/syncables.go:41-80 | after a successful channel loop every listed pair is joined in that sense; a missing channel membership is excused only by a refusal issued during this loop |
| Additions.CreateDefaultMembershipsSuccess | app/syncables.go:18-83 | after a successful pass every listed team pair is a team membership and every listed channel pair is joined; a missing channel membership is excused only by a refusal issued during this pass |
| Additions.AddTeamsFaultFree | app/syncables.go:24-34 | with no failure injected the team loop succeeds |
| Additions.AddChannelsFaultFree | app/syncables.go:41-80 | with no failure injected and known channels the channel loop succeeds and every pair becomes a channel membership |
| Additions.CreateDefaultMembershipsRerun | app/syncables.go:18-83 | re-running a successful pass without failures succeeds, leaves team memberships and all admin flags unchanged, and adds only the listed channel pairs still missing; when none is missing it changes no membership |
| Removals.RemoveChannelsPrefix | app/syncables.go:93-108 | while the first k channels are known and their commands do not fail, the loop has removed exactly those pairs, in order, and goes on with the rest |
| Removals.RemoveTeamsPrefix | app/syncables.go:115-125 | while none of the first k removals fails, the loop has removed exactly those team pairs and goes on with the rest |
| Removals.RemoveChannelFailure | app/syncables.go:94-102 | a channel step fails exactly when its lookup or its removal fails, with that error id; a failed lookup issues no removal |
| Removals.RemoveChannelsAbortAt | app/syncables.go:93-102 | when the k-th channel step is the first to fail, its error is returned, earlier pairs stay removed, team memberships are untouched and no later pair is attempted |
| Removals.RemoveTeamsAbortAt | app/syncables.go:115-119 | when the removal of the k-th team pair is the first to fail, its error is returned, earlier pairs stay removed and no later pair is attempted |
| Removals.RemoveChannelsClearsAll | app/syncables.go:93-108 | after a successful channel loop no listed pair is a channel membership |
| Removals.RemoveTeamsClearsAll | app/syncables.go:115-125 | after a successful team loop no listed pair is a team membership |
| Removals.DeleteGroupConstrainedMembershipsSuccess | app/syncables.go:87-128 | after a successful pass the memberships are exactly the former ones minus the listed pairs, remaining admin flags unchanged |
| Removals.DeleteGroupConstrainedMembershipsOrder | app/syncables.go:87-127 | every channel removal precedes every team removal, and a team removal is issued only after all listed channel pairs are gone |
| Roles.SyncSyncableRolesAdminIffPermitted | app/syncables.go:155-165 | after success each member of the syncable is admin iff its user is permitted; other syncables' flags and all memberships are unchanged; exactly the grant then the revoke were issued |
| Roles.SyncSyncableRolesUnsupported | app/syncables.go:146-153 | an unsupported syncable type returns `groups.unsupported_syncable_type` with no command issued and nothing changed |
| Roles.SyncSyncableRolesGrantFails | app/syncables.go:155-158 | if the Equals/true update fails its error is returned, the NotEquals/false update is not issued and nothing changes |
| Roles.SyncSyncableRolesRevokeFails | app/syncables.go:160-163 | if the NotEquals/false update fails its error is returned and the grant stays: permitted members of the syncable are admins, all else as before |
| Roles.SyncSyncableRolesIdempotent | app/syncables.go:155-165 | synchronizing again with the same permitted list changes no flag |

## Left out

- Logging (`a.Log.Info` with its `mlog` fields and the formatted keys) has no effect on state and is not modelled. This includes the "added channelmember" line, which is also logged after a refused add.
- The candidate queries `TeamMembersToAdd`, `ChannelMembersToAdd`, `ChannelMembersToRemove`, `TeamMembersToRemove` and `PermittedSyncableAdmins` are SQL in the store layer, which is not part of this model. Each is an input `Result` that is either a list or a failure. Their failure branches are modelled. The `since` cursor only feeds these queries and is dropped. `ChannelMembersToAdd` and `TeamMembersToRemove` are queried after the first loop. As inputs they cannot depend on that loop's effects, but any answer they could give is covered.
- The internals of `AddTeamMember`, `AddChannelMember`, `RemoveUserFromChannel` and `RemoveUserFromTeam` (permissions, plugins, posts, websocket events) are not modelled. Each is one store mutation that may fail with an injected error id. In particular, removing a team member does not cascade to that team's channels. The channel add does not check team membership itself; the "already left the team" refusal arises only as an injected failure.
- The not-found id of the channel lookup (`ChannelNotFound`) comes from the channel code, which is not part of this model. Only the fact that it is a failure matters to the passes.
- `model.AppError` is reduced to its `Id`: HTTP status codes, parameters and detail strings are not modelled. `GroupSyncableType` becomes a variant type with Team, Channel and every other value.
- The empty requester id, join source and root post id passed to the store commands, and the channel object passed to `AddChannelMember` and `RemoveUserFromChannel`, are replaced by the ids they carry.
- Additions.CreateDefaultMembershipsRerun: does not state that a second run leaves the channel memberships unchanged whenever the first run passed over a refused pair. The refusal is an injected failure that does not depend on the store, so the model cannot make it recur.
- Concurrency with unrelated membership changes is not modelled. The tolerated race appears only as the injected "already left the team" id.
