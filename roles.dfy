/** Properties of SyncSyncableRoles (`Reconcile.SyncSyncableRoles`). */
module Roles {
  import opened Types
  import opened StoreModel
  import opened Reconcile

  /** After a successful synchronization of a team, each of its members is an admin
      exactly when the user is permitted; every other membership, every other flag and
      every channel membership is as before. Likewise for a channel. Exactly the grant
      and then the revoke were issued. */
  lemma SyncSyncableRolesAdminIffPermitted(db: Db, id: string, syncableType: SyncableType, permittedAdmins: Result<seq<UserId>>)
    requires SyncSyncableRoles(db, id, syncableType, permittedAdmins).out.Pass?
    ensures permittedAdmins.Ok? && !syncableType.UnknownSyncable?
    ensures var a := SyncSyncableRoles(db, id, syncableType, permittedAdmins);
            var store := RoleUpdater(syncableType).value;
            var admins := permittedAdmins.value;
      a.db.calls == db.calls + [UpdateMembersRoleCall(store, id, admins, Equals, true),
                                UpdateMembersRoleCall(store, id, admins, NotEquals, false)]
    ensures var a := SyncSyncableRoles(db, id, syncableType, permittedAdmins);
      syncableType == TeamSyncable ==>
        && a.db.channelMembers == db.channelMembers
        && a.db.teamMembers.Keys == db.teamMembers.Keys
        && forall m :: m in a.db.teamMembers ==>
             a.db.teamMembers[m] == if m.team == id then m.user in permittedAdmins.value else db.teamMembers[m]
    ensures var a := SyncSyncableRoles(db, id, syncableType, permittedAdmins);
      syncableType == ChannelSyncable ==>
        && a.db.teamMembers == db.teamMembers
        && a.db.channelMembers.Keys == db.channelMembers.Keys
        && forall m :: m in a.db.channelMembers ==>
             a.db.channelMembers[m] == if m.channel == id then m.user in permittedAdmins.value else db.channelMembers[m]
  {
    var admins := permittedAdmins.value;
    var store := RoleUpdater(syncableType).value;
    var granted := UpdateMembersRole(db, store, id, admins, Equals, true);
    var revoked := UpdateMembersRole(granted.db, store, id, admins, NotEquals, false);
    assert revoked == SyncSyncableRoles(db, id, syncableType, permittedAdmins);
    if syncableType == TeamSyncable {
      forall m | m in revoked.db.teamMembers
        ensures revoked.db.teamMembers[m] == if m.team == id then m.user in admins else db.teamMembers[m]
      {
        assert m in granted.db.teamMembers;
      }
    } else {
      forall m | m in revoked.db.channelMembers
        ensures revoked.db.channelMembers[m] == if m.channel == id then m.user in admins else db.channelMembers[m]
      {
        assert m in granted.db.channelMembers;
      }
    }
  }

  /** An unsupported syncable type is rejected with no command issued and nothing changed. */
  lemma SyncSyncableRolesUnsupported(db: Db, id: string, name: string, admins: seq<UserId>)
    ensures SyncSyncableRoles(db, id, UnknownSyncable(name), Ok(admins)) == After(db, Fail(UnsupportedSyncableType))
  {
  }

  /** If the grant fails, its error is returned and the revoke is never issued. */
  lemma SyncSyncableRolesGrantFails(db: Db, id: string, syncableType: SyncableType, admins: seq<UserId>)
    requires !syncableType.UnknownSyncable?
    requires |db.calls| in db.faults
    ensures SyncSyncableRoles(db, id, syncableType, Ok(admins))
         == After(Issue(db, UpdateMembersRoleCall(RoleUpdater(syncableType).value, id, admins, Equals, true)),
                  Fail(db.faults[|db.calls|]))
  {
  }

  /** If the revoke fails, its error is returned and the grant stays: the permitted
      members of the syncable are admins, every other flag is as before. */
  lemma SyncSyncableRolesRevokeFails(db: Db, id: string, syncableType: SyncableType, admins: seq<UserId>)
    requires !syncableType.UnknownSyncable?
    requires |db.calls| !in db.faults && |db.calls| + 1 in db.faults
    ensures var a := SyncSyncableRoles(db, id, syncableType, Ok(admins));
            var store := RoleUpdater(syncableType).value;
      && a.out == Fail(db.faults[|db.calls| + 1])
      && a.db.calls == db.calls + [UpdateMembersRoleCall(store, id, admins, Equals, true),
                                   UpdateMembersRoleCall(store, id, admins, NotEquals, false)]
    ensures var a := SyncSyncableRoles(db, id, syncableType, Ok(admins));
      syncableType == TeamSyncable ==>
        && a.db.channelMembers == db.channelMembers
        && a.db.teamMembers.Keys == db.teamMembers.Keys
        && forall m :: m in a.db.teamMembers ==>
             a.db.teamMembers[m] == if m.team == id && m.user in admins then true else db.teamMembers[m]
    ensures var a := SyncSyncableRoles(db, id, syncableType, Ok(admins));
      syncableType == ChannelSyncable ==>
        && a.db.teamMembers == db.teamMembers
        && a.db.channelMembers.Keys == db.channelMembers.Keys
        && forall m :: m in a.db.channelMembers ==>
             a.db.channelMembers[m] == if m.channel == id && m.user in admins then true else db.channelMembers[m]
  {
  }

  /** Synchronizing again with the same permitted list changes no flag. */
  lemma SyncSyncableRolesIdempotent(db: Db, id: string, syncableType: SyncableType, permittedAdmins: Result<seq<UserId>>)
    requires SyncSyncableRoles(db, id, syncableType, permittedAdmins).out.Pass?
    requires SyncSyncableRoles(SyncSyncableRoles(db, id, syncableType, permittedAdmins).db, id, syncableType, permittedAdmins).out.Pass?
    ensures var first := SyncSyncableRoles(db, id, syncableType, permittedAdmins).db;
            var second := SyncSyncableRoles(first, id, syncableType, permittedAdmins).db;
      second.teamMembers == first.teamMembers && second.channelMembers == first.channelMembers
  {
    var first := SyncSyncableRoles(db, id, syncableType, permittedAdmins).db;
    SyncSyncableRolesAdminIffPermitted(db, id, syncableType, permittedAdmins);
    SyncSyncableRolesAdminIffPermitted(first, id, syncableType, permittedAdmins);
  }
}
