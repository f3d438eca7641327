/** Channels (backend/src/channel.py): invite, details, messages, leave,
    join, addowner and removeowner. The token is the caller's user id;
    `now` is the time of the call. */
module ChannelService {
  import opened Wrappers
  import opened Seqs
  import opened Documents
  import opened Records
  import opened Persistence
  import opened AuthService
  import opened Delivery

  /** channel_messages returns at most this many messages per page. */
  const PageSize := 50

  /** Who may manage a channel's owners or enter it while private: a
      global owner or one of the channel's owners. */
  predicate MayManage(u: User, c: Channel)
  {
    u.permissionLevel == OwnerPermission || u.userId in c.ownerIds
  }

  /** Writing back a changed channel under its id changes what is found
      under that id and nothing else. */
  lemma Rewrite(w: World, c: Channel)
    requires WorldValid(w) && c.channelId in w.channels.ids
    ensures WorldValid(PutChannel(w, c))
    ensures PutChannel(w, c).channels.ids == w.channels.ids
    ensures forall y :: Find(PutChannel(w, c).channels, y) == if y == c.channelId then Some(c) else Find(w.channels, y)
  {
    ReplaceSpec(w.channels, ChannelKey, c.channelId, c);
  }

  /* ---- invite ---- */

  /** channel_invite: token, channel, caller's membership, target user;
      then the target is appended to the members, even if already there. */
  function InviteSpec(w: World, caller: int, cid: int, uid: int): Outcome<()>
  {
    match TokenValid(w, caller)
    case Err(e) => Outcome(w, Err(e))
    case Ok(valid) =>
      if !valid then Outcome(w, Err(AccessError))
      else
        match Find(w.channels, cid)
        case None => Outcome(w, Err(InputError))
        case Some(c) =>
          if caller !in c.memberIds then Outcome(w, Err(AccessError))
          else if Find(w.users, uid).None? then Outcome(w, Err(InputError))
          else Outcome(PutChannel(w, c.(memberIds := c.memberIds + [uid])), Ok(()))
  }

  method ChannelInvite(s: Persistence.Store, caller: int, cid: int, uid: int) returns (r: Result<()>)
    modifies s
    requires s.Valid()
    ensures s.Valid()
    ensures Outcome(s.Snapshot(), r) == InviteSpec(old(s.Snapshot()), caller, cid, uid)
  {
    var valid := CheckValidToken(s, caller);
    if valid.Err? {
      return Err(valid.error);
    }
    if !valid.value {
      return Err(AccessError);
    }
    var c := s.GetChannel(cid);
    if c.None? {
      return Err(InputError);
    }
    if caller !in c.value.memberIds {
      return Err(AccessError);
    }
    var target := s.GetUser(uid);
    if target.None? {
      return Err(InputError);
    }
    var _ := s.UpdateChannel(cid, c.value.(memberIds := c.value.memberIds + [uid]));
    r := Ok(());
  }

  /** Invite succeeds exactly when a logged-in member invites a stored
      user; the target then occurs once more among the members, and
      nothing else changes. */
  lemma InviteSuccess(w: World, caller: int, cid: int, uid: int)
    requires WorldValid(w)
    ensures InviteSpec(w, caller, cid, uid).result.Ok? <==>
      && TokenValid(w, caller) == Ok(true)
      && Find(w.channels, cid).Some? && caller in Find(w.channels, cid).value.memberIds
      && uid in w.users.ids
    ensures InviteSpec(w, caller, cid, uid).result.Ok? ==>
      var w' := InviteSpec(w, caller, cid, uid).world;
      var c := Find(w.channels, cid).value;
      && WorldValid(w')
      && Find(w'.channels, cid) == Some(c.(memberIds := c.memberIds + [uid]))
      && multiset(Find(w'.channels, cid).value.memberIds)[uid] == multiset(c.memberIds)[uid] + 1
      && (forall y :: y != cid ==> Find(w'.channels, y) == Find(w.channels, y))
      && w'.users == w.users && w'.messages == w.messages && w'.unsent == w.unsent
  {
    FindSpec(w.users, UserKey, uid);
    FindSpec(w.channels, ChannelKey, cid);
    if InviteSpec(w, caller, cid, uid).result.Ok? {
      var c := Find(w.channels, cid).value;
      Rewrite(w, c.(memberIds := c.memberIds + [uid]));
    }
  }

  /* ---- leave ---- */

  /** channel_leave: token, channel, membership; then one occurrence of
      the caller is removed from the members. The owners are left alone. */
  function LeaveSpec(w: World, caller: int, cid: int): Outcome<()>
  {
    match TokenValid(w, caller)
    case Err(e) => Outcome(w, Err(e))
    case Ok(valid) =>
      if !valid then Outcome(w, Err(AccessError))
      else
        match Find(w.channels, cid)
        case None => Outcome(w, Err(InputError))
        case Some(c) =>
          if caller !in c.memberIds then Outcome(w, Err(AccessError))
          else Outcome(PutChannel(w, c.(memberIds := RemoveFirst(c.memberIds, caller))), Ok(()))
  }

  method ChannelLeave(s: Persistence.Store, caller: int, cid: int) returns (r: Result<()>)
    modifies s
    requires s.Valid()
    ensures s.Valid()
    ensures Outcome(s.Snapshot(), r) == LeaveSpec(old(s.Snapshot()), caller, cid)
  {
    var valid := CheckValidToken(s, caller);
    if valid.Err? {
      return Err(valid.error);
    }
    if !valid.value {
      return Err(AccessError);
    }
    var c := s.GetChannel(cid);
    if c.None? {
      return Err(InputError);
    }
    if caller !in c.value.memberIds {
      return Err(AccessError);
    }
    var _ := s.UpdateChannel(cid, c.value.(memberIds := RemoveFirst(c.value.memberIds, caller)));
    r := Ok(());
  }

  /** Leaving succeeds exactly for a logged-in member and removes one of
      the caller's memberships; the owner list is unchanged, so an owner
      who had one membership is afterwards an owner who is not a member. */
  lemma LeaveKeepsOwnership(w: World, caller: int, cid: int)
    requires WorldValid(w)
    ensures LeaveSpec(w, caller, cid).result.Ok? <==>
      && TokenValid(w, caller) == Ok(true)
      && Find(w.channels, cid).Some? && caller in Find(w.channels, cid).value.memberIds
    ensures LeaveSpec(w, caller, cid).result.Ok? ==>
      var w' := LeaveSpec(w, caller, cid).world;
      var c := Find(w.channels, cid).value;
      && WorldValid(w')
      && Find(w'.channels, cid).Some?
      && Find(w'.channels, cid).value.ownerIds == c.ownerIds
      && multiset(Find(w'.channels, cid).value.memberIds) == multiset(c.memberIds) - multiset{caller}
      && (multiset(c.memberIds)[caller] == 1 ==> caller !in Find(w'.channels, cid).value.memberIds)
      && (forall y :: y != cid ==> Find(w'.channels, y) == Find(w.channels, y))
  {
    FindSpec(w.channels, ChannelKey, cid);
    if LeaveSpec(w, caller, cid).result.Ok? {
      var c := Find(w.channels, cid).value;
      var c' := c.(memberIds := RemoveFirst(c.memberIds, caller));
      Rewrite(w, c');
      if multiset(c.memberIds)[caller] == 1 {
        assert multiset(c'.memberIds)[caller] == 0;
      }
    }
  }

  /** Inviting someone who is not yet a member and having them leave
      again gives back the world as it was. */
  lemma InviteLeaveRoundTrip(w: World, caller: int, cid: int, uid: int)
    requires WorldValid(w) && InviteSpec(w, caller, cid, uid).result.Ok?
    requires uid !in Find(w.channels, cid).value.memberIds
    requires TokenValid(w, uid) == Ok(true)
    ensures LeaveSpec(InviteSpec(w, caller, cid, uid).world, uid, cid) == Outcome(w, Ok(()))
  {
    var c := Find(w.channels, cid).value;
    var c1 := c.(memberIds := c.memberIds + [uid]);
    FindSpec(w.channels, ChannelKey, cid);
    Rewrite(w, c1);
    var w1 := PutChannel(w, c1);
    RemoveFirstAppended(c.memberIds, uid);
    assert c1.(memberIds := RemoveFirst(c1.memberIds, uid)) == c;
    ReplaceRestore(w.channels, ChannelKey, cid, c1);
    assert PutChannel(w1, c) == w;
  }

  /* ---- join ---- */

  /** channel_join: token, channel; a private channel admits only global
      and channel owners; then the caller is appended to the members,
      even if already there. */
  function JoinSpec(w: World, caller: int, cid: int): Outcome<()>
  {
    match TokenValid(w, caller)
    case Err(e) => Outcome(w, Err(e))
    case Ok(valid) =>
      if !valid then Outcome(w, Err(AccessError))
      else
        match Find(w.channels, cid)
        case None => Outcome(w, Err(InputError))
        case Some(c) =>
          if c.private && !MayManage(Find(w.users, caller).value, c) then Outcome(w, Err(AccessError))
          else Outcome(PutChannel(w, c.(memberIds := c.memberIds + [caller])), Ok(()))
  }

  method ChannelJoin(s: Persistence.Store, caller: int, cid: int) returns (r: Result<()>)
    modifies s
    requires s.Valid()
    ensures s.Valid()
    ensures Outcome(s.Snapshot(), r) == JoinSpec(old(s.Snapshot()), caller, cid)
  {
    var valid := CheckValidToken(s, caller);
    if valid.Err? {
      return Err(valid.error);
    }
    if !valid.value {
      return Err(AccessError);
    }
    var c := s.GetChannel(cid);
    if c.None? {
      return Err(InputError);
    }
    if c.value.private {
      var u := s.GetUser(caller);
      if !MayManage(u.value, c.value) {
        return Err(AccessError);
      }
    }
    var _ := s.UpdateChannel(cid, c.value.(memberIds := c.value.memberIds + [caller]));
    r := Ok(());
  }

  /** Joining succeeds exactly for a logged-in user on a public channel,
      or on a private one when a global or channel owner; the caller is
      then a member and the owners are unchanged. */
  lemma JoinSuccess(w: World, caller: int, cid: int)
    requires WorldValid(w)
    ensures JoinSpec(w, caller, cid).result.Ok? <==>
      && TokenValid(w, caller) == Ok(true)
      && Find(w.channels, cid).Some?
      && (Find(w.channels, cid).value.private ==>
            Find(w.users, caller).value.permissionLevel == OwnerPermission || caller in Find(w.channels, cid).value.ownerIds)
    ensures JoinSpec(w, caller, cid).result.Ok? ==>
      var w' := JoinSpec(w, caller, cid).world;
      var c := Find(w.channels, cid).value;
      && WorldValid(w')
      && Find(w'.channels, cid) == Some(c.(memberIds := c.memberIds + [caller]))
      && caller in Find(w'.channels, cid).value.memberIds
      && (forall y :: y != cid ==> Find(w'.channels, y) == Find(w.channels, y))
  {
    FindSpec(w.channels, ChannelKey, cid);
    FindSpec(w.users, UserKey, caller);
    if JoinSpec(w, caller, cid).result.Ok? {
      var c := Find(w.channels, cid).value;
      Rewrite(w, c.(memberIds := c.memberIds + [caller]));
    }
  }

  /* ---- owners ---- */

  /** channel_addowner: token, channel, target not yet an owner, caller
      authorised; then the target is appended to the owners. Membership
      of the target, or even its existence as a user, is not checked. */
  function AddOwnerSpec(w: World, caller: int, cid: int, uid: int): Outcome<()>
  {
    match TokenValid(w, caller)
    case Err(e) => Outcome(w, Err(e))
    case Ok(valid) =>
      if !valid then Outcome(w, Err(AccessError))
      else
        match Find(w.channels, cid)
        case None => Outcome(w, Err(InputError))
        case Some(c) =>
          if uid in c.ownerIds then Outcome(w, Err(InputError))
          else if !MayManage(Find(w.users, caller).value, c) then Outcome(w, Err(AccessError))
          else Outcome(PutChannel(w, c.(ownerIds := c.ownerIds + [uid])), Ok(()))
  }

  method ChannelAddOwner(s: Persistence.Store, caller: int, cid: int, uid: int) returns (r: Result<()>)
    modifies s
    requires s.Valid()
    ensures s.Valid()
    ensures Outcome(s.Snapshot(), r) == AddOwnerSpec(old(s.Snapshot()), caller, cid, uid)
  {
    var valid := CheckValidToken(s, caller);
    if valid.Err? {
      return Err(valid.error);
    }
    if !valid.value {
      return Err(AccessError);
    }
    var c := s.GetChannel(cid);
    if c.None? {
      return Err(InputError);
    }
    if uid in c.value.ownerIds {
      return Err(InputError);
    }
    var u := s.GetUser(caller);
    if !MayManage(u.value, c.value) {
      return Err(AccessError);
    }
    var _ := s.UpdateChannel(cid, c.value.(ownerIds := c.value.ownerIds + [uid]));
    r := Ok(());
  }

  /** channel_removeowner: token, channel, target an owner, caller
      authorised; then one occurrence of the target leaves the owners. */
  function RemoveOwnerSpec(w: World, caller: int, cid: int, uid: int): Outcome<()>
  {
    match TokenValid(w, caller)
    case Err(e) => Outcome(w, Err(e))
    case Ok(valid) =>
      if !valid then Outcome(w, Err(AccessError))
      else
        match Find(w.channels, cid)
        case None => Outcome(w, Err(InputError))
        case Some(c) =>
          if uid !in c.ownerIds then Outcome(w, Err(InputError))
          else if !MayManage(Find(w.users, caller).value, c) then Outcome(w, Err(AccessError))
          else Outcome(PutChannel(w, c.(ownerIds := RemoveFirst(c.ownerIds, uid))), Ok(()))
  }

  method ChannelRemoveOwner(s: Persistence.Store, caller: int, cid: int, uid: int) returns (r: Result<()>)
    modifies s
    requires s.Valid()
    ensures s.Valid()
    ensures Outcome(s.Snapshot(), r) == RemoveOwnerSpec(old(s.Snapshot()), caller, cid, uid)
  {
    var valid := CheckValidToken(s, caller);
    if valid.Err? {
      return Err(valid.error);
    }
    if !valid.value {
      return Err(AccessError);
    }
    var c := s.GetChannel(cid);
    if c.None? {
      return Err(InputError);
    }
    if uid !in c.value.ownerIds {
      return Err(InputError);
    }
    var u := s.GetUser(caller);
    if !MayManage(u.value, c.value) {
      return Err(AccessError);
    }
    var _ := s.UpdateChannel(cid, c.value.(ownerIds := RemoveFirst(c.value.ownerIds, uid)));
    r := Ok(());
  }

  /** Adding an owner succeeds exactly when an authorised, logged-in
      caller names someone not yet an owner; the target becomes an owner
      and the members are untouched, so the target need not be a member. */
  lemma AddOwnerSuccess(w: World, caller: int, cid: int, uid: int)
    requires WorldValid(w)
    ensures AddOwnerSpec(w, caller, cid, uid).result.Ok? <==>
      && TokenValid(w, caller) == Ok(true)
      && Find(w.channels, cid).Some? && uid !in Find(w.channels, cid).value.ownerIds
      && MayManage(Find(w.users, caller).value, Find(w.channels, cid).value)
    ensures AddOwnerSpec(w, caller, cid, uid).result.Ok? ==>
      var w' := AddOwnerSpec(w, caller, cid, uid).world;
      var c := Find(w.channels, cid).value;
      && WorldValid(w')
      && Find(w'.channels, cid) == Some(c.(ownerIds := c.ownerIds + [uid]))
      && uid in Find(w'.channels, cid).value.ownerIds
      && Find(w'.channels, cid).value.memberIds == c.memberIds
      && (forall y :: y != cid ==> Find(w'.channels, y) == Find(w.channels, y))
  {
    FindSpec(w.channels, ChannelKey, cid);
    if AddOwnerSpec(w, caller, cid, uid).result.Ok? {
      var c := Find(w.channels, cid).value;
      Rewrite(w, c.(ownerIds := c.ownerIds + [uid]));
    }
  }

  /** Removing an owner succeeds exactly when an authorised, logged-in
      caller names a current owner; one of the target's ownerships goes
      and the members are untouched. */
  lemma RemoveOwnerSuccess(w: World, caller: int, cid: int, uid: int)
    requires WorldValid(w)
    ensures RemoveOwnerSpec(w, caller, cid, uid).result.Ok? <==>
      && TokenValid(w, caller) == Ok(true)
      && Find(w.channels, cid).Some? && uid in Find(w.channels, cid).value.ownerIds
      && MayManage(Find(w.users, caller).value, Find(w.channels, cid).value)
    ensures RemoveOwnerSpec(w, caller, cid, uid).result.Ok? ==>
      var w' := RemoveOwnerSpec(w, caller, cid, uid).world;
      var c := Find(w.channels, cid).value;
      && WorldValid(w')
      && Find(w'.channels, cid) == Some(c.(ownerIds := RemoveFirst(c.ownerIds, uid)))
      && multiset(Find(w'.channels, cid).value.ownerIds) == multiset(c.ownerIds) - multiset{uid}
      && Find(w'.channels, cid).value.memberIds == c.memberIds
      && (forall y :: y != cid ==> Find(w'.channels, y) == Find(w.channels, y))
  {
    FindSpec(w.channels, ChannelKey, cid);
    if RemoveOwnerSpec(w, caller, cid, uid).result.Ok? {
      var c := Find(w.channels, cid).value;
      Rewrite(w, c.(ownerIds := RemoveFirst(c.ownerIds, uid)));
    }
  }

  /** The ways adding an owner fails, each leaving the world as it was.
      Whether the target is already an owner is checked before the
      caller's authority, so an unauthorised caller naming an owner gets
      InputError. */
  lemma AddOwnerErrors(w: World, caller: int, cid: int, uid: int)
    ensures TokenValid(w, caller).Err? ==>
      AddOwnerSpec(w, caller, cid, uid) == Outcome(w, Err(TokenValid(w, caller).error))
    ensures TokenValid(w, caller) == Ok(false) ==>
      AddOwnerSpec(w, caller, cid, uid) == Outcome(w, Err(AccessError))
    ensures TokenValid(w, caller) == Ok(true) && Find(w.channels, cid).None? ==>
      AddOwnerSpec(w, caller, cid, uid) == Outcome(w, Err(InputError))
    ensures (TokenValid(w, caller) == Ok(true) && Find(w.channels, cid).Some?
        && uid in Find(w.channels, cid).value.ownerIds) ==>
      AddOwnerSpec(w, caller, cid, uid) == Outcome(w, Err(InputError))
    ensures (TokenValid(w, caller) == Ok(true) && Find(w.channels, cid).Some?
        && uid !in Find(w.channels, cid).value.ownerIds
        && !MayManage(Find(w.users, caller).value, Find(w.channels, cid).value)) ==>
      AddOwnerSpec(w, caller, cid, uid) == Outcome(w, Err(AccessError))
  {
  }

  /** The ways removing an owner fails, each leaving the world as it was;
      again the target is checked before the caller's authority. */
  lemma RemoveOwnerErrors(w: World, caller: int, cid: int, uid: int)
    ensures TokenValid(w, caller).Err? ==>
      RemoveOwnerSpec(w, caller, cid, uid) == Outcome(w, Err(TokenValid(w, caller).error))
    ensures TokenValid(w, caller) == Ok(false) ==>
      RemoveOwnerSpec(w, caller, cid, uid) == Outcome(w, Err(AccessError))
    ensures TokenValid(w, caller) == Ok(true) && Find(w.channels, cid).None? ==>
      RemoveOwnerSpec(w, caller, cid, uid) == Outcome(w, Err(InputError))
    ensures (TokenValid(w, caller) == Ok(true) && Find(w.channels, cid).Some?
        && uid !in Find(w.channels, cid).value.ownerIds) ==>
      RemoveOwnerSpec(w, caller, cid, uid) == Outcome(w, Err(InputError))
    ensures (TokenValid(w, caller) == Ok(true) && Find(w.channels, cid).Some?
        && uid in Find(w.channels, cid).value.ownerIds
        && !MayManage(Find(w.users, caller).value, Find(w.channels, cid).value)) ==>
      RemoveOwnerSpec(w, caller, cid, uid) == Outcome(w, Err(AccessError))
  {
  }

  /** Adding an owner and then removing the same one, as the same
      caller, gives back the world as it was: the caller is still
      authorised, since the owner list only grew. */
  lemma AddRemoveOwnerRoundTrip(w: World, caller: int, cid: int, uid: int)
    requires WorldValid(w) && AddOwnerSpec(w, caller, cid, uid).result.Ok?
    ensures RemoveOwnerSpec(AddOwnerSpec(w, caller, cid, uid).world, caller, cid, uid) == Outcome(w, Ok(()))
  {
    var c := Find(w.channels, cid).value;
    var c1 := c.(ownerIds := c.ownerIds + [uid]);
    FindSpec(w.channels, ChannelKey, cid);
    Rewrite(w, c1);
    var w1 := PutChannel(w, c1);
    assert MayManage(Find(w1.users, caller).value, c1);
    RemoveFirstAppended(c.ownerIds, uid);
    assert c1.(ownerIds := RemoveFirst(c1.ownerIds, uid)) == c;
    ReplaceRestore(w.channels, ChannelKey, cid, c1);
    assert PutChannel(w1, c) == w;
  }

  /** A channel owner who is not a member stays an owner, and the caller
      can make anyone an owner, member or not; the two lists stay apart. */
  lemma OwnerWithoutMembership(w: World, caller: int, cid: int, uid: int)
    requires WorldValid(w) && AddOwnerSpec(w, caller, cid, uid).result.Ok?
    requires uid !in Find(w.channels, cid).value.memberIds
    ensures var c' := Find(AddOwnerSpec(w, caller, cid, uid).world.channels, cid).value;
      uid in c'.ownerIds && uid !in c'.memberIds
  {
    AddOwnerSuccess(w, caller, cid, uid);
  }

  /* ---- details ---- */

  /** One entry of channel_details' member lists. */
  datatype MemberView = MemberView(uId: int, nameFirst: string, nameLast: string, profileImgUrl: string)

  datatype Details = Details(name: string, ownerMembers: seq<MemberView>, allMembers: seq<MemberView>)

  function MemberOf(id: int, u: User): MemberView
  {
    MemberView(id, u.firstName, u.lastName, u.profilePicUrl)
  }

  /** Every listed member is a stored user; otherwise the source fails
      reading a field of the missing record. */
  predicate AllStored(users: Doc<User>, ids: seq<int>)
  {
    forall k :: 0 <= k < |ids| ==> Find(users, ids[k]).Some?
  }

  /** The entries of the members, in member order. */
  function MemberViews(users: Doc<User>, ids: seq<int>): seq<MemberView>
    requires AllStored(users, ids)
  {
    seq(|ids|, k requires 0 <= k < |ids| && AllStored(users, ids) => MemberOf(ids[k], Find(users, ids[k]).value))
  }

  /** The entries whose user is an owner, in the order given. */
  function OwnersAmong(views: seq<MemberView>, owners: seq<int>): seq<MemberView>
  {
    if views == [] then []
    else
      var last := views[|views| - 1];
      OwnersAmong(views[..|views| - 1], owners) + (if last.uId in owners then [last] else [])
  }

  /** An entry is listed as an owner exactly when it is listed as a
      member and its user is an owner. */
  lemma {:induction false} OwnersAmongSpec(views: seq<MemberView>, owners: seq<int>)
    ensures forall v :: v in OwnersAmong(views, owners) <==> v in views && v.uId in owners
    decreases |views|
  {
    if views != [] {
      var init := views[..|views| - 1];
      OwnersAmongSpec(init, owners);
      assert views == init + [views[|views| - 1]];
    }
  }

  /** The owner entries of a list split in two are those of the first part
      followed by those of the second, and a single entry is kept exactly
      when its user is an owner: so the owners keep the order and the
      multiplicity they have among the members. */
  lemma {:induction false} OwnersAmongAppend(a: seq<MemberView>, b: seq<MemberView>, owners: seq<int>)
    ensures OwnersAmong(a + b, owners) == OwnersAmong(a, owners) + OwnersAmong(b, owners)
    ensures |b| == 1 ==> OwnersAmong(b, owners) == if b[0].uId in owners then b else []
    decreases |b|
  {
    if b == [] {
      assert a + b == a;
    } else {
      var init := b[..|b| - 1];
      var last := b[|b| - 1];
      assert (a + b)[..|a + b| - 1] == a + init;
      assert (a + b)[|a + b| - 1] == last;
      OwnersAmongAppend(a, init, owners);
      if |b| == 1 {
        assert init == [];
        assert [last] == b;
      }
    }
  }

  /** channel_details: token, channel, membership, then one entry per
      member and, among them, the owners. */
  function DetailsSpec(w: World, caller: int, cid: int): Result<Details>
  {
    match TokenValid(w, caller)
    case Err(e) => Err(e)
    case Ok(valid) =>
      if !valid then Err(AccessError)
      else
        match Find(w.channels, cid)
        case None => Err(InputError)
        case Some(c) =>
          if caller !in c.memberIds then Err(AccessError)
          else if !AllStored(w.users, c.memberIds) then Err(Fault)
          else
            var all := MemberViews(w.users, c.memberIds);
            Ok(Details(c.name, OwnersAmong(all, c.ownerIds), all))
  }

  method ChannelDetails(s: Persistence.Store, caller: int, cid: int) returns (r: Result<Details>)
    requires s.Valid()
    ensures r == DetailsSpec(s.Snapshot(), caller, cid)
  {
    var valid := CheckValidToken(s, caller);
    if valid.Err? {
      return Err(valid.error);
    }
    if !valid.value {
      return Err(AccessError);
    }
    var c := s.GetChannel(cid);
    if c.None? {
      return Err(InputError);
    }
    if caller !in c.value.memberIds {
      return Err(AccessError);
    }
    var ids := c.value.memberIds;
    var all: seq<MemberView> := [];
    var owners: seq<MemberView> := [];
    var i := 0;
    while i < |ids|
      invariant 0 <= i <= |ids| && |all| == i
      invariant forall k :: 0 <= k < i ==> Find(s.users, ids[k]).Some? && all[k] == MemberOf(ids[k], Find(s.users, ids[k]).value)
      invariant owners == OwnersAmong(all, c.value.ownerIds)
    {
      var u := s.GetUser(ids[i]);
      if u.None? {
        return Err(Fault);
      }
      var entry := MemberOf(ids[i], u.value);
      assert (all + [entry])[..i] == all;
      all := all + [entry];
      if ids[i] in c.value.ownerIds {
        owners := owners + [entry];
      }
      i := i + 1;
    }
    assert all == MemberViews(s.users, ids);
    r := Ok(Details(c.value.name, owners, all));
  }

  /** A successful details call lists every membership in member order
      with the stored user's names and picture, and lists as owners
      exactly those entries whose user is also an owner: an owner who is
      not a member is not listed. */
  lemma DetailsLists(w: World, caller: int, cid: int)
    requires WorldValid(w)
    ensures DetailsSpec(w, caller, cid).Ok? <==>
      && TokenValid(w, caller) == Ok(true)
      && Find(w.channels, cid).Some? && caller in Find(w.channels, cid).value.memberIds
      && (forall x :: x in Find(w.channels, cid).value.memberIds ==> x in w.users.ids)
    ensures DetailsSpec(w, caller, cid).Ok? ==>
      var d := DetailsSpec(w, caller, cid).value;
      var c := Find(w.channels, cid).value;
      && d.name == c.name
      && |d.allMembers| == |c.memberIds|
      && (forall k :: 0 <= k < |c.memberIds| ==>
            && d.allMembers[k].uId == c.memberIds[k]
            && d.allMembers[k].nameFirst == Find(w.users, c.memberIds[k]).value.firstName
            && d.allMembers[k].nameLast == Find(w.users, c.memberIds[k]).value.lastName
            && d.allMembers[k].profileImgUrl == Find(w.users, c.memberIds[k]).value.profilePicUrl)
      && d.ownerMembers == OwnersAmong(d.allMembers, c.ownerIds)
      && (forall v :: v in d.ownerMembers <==> v in d.allMembers && v.uId in c.ownerIds)
      && (forall v :: v in d.ownerMembers ==> v.uId in c.memberIds)
  {
    FindSpec(w.channels, ChannelKey, cid);
    if Find(w.channels, cid).Some? {
      var c := Find(w.channels, cid).value;
      if AllStored(w.users, c.memberIds) {
        forall x | x in c.memberIds ensures x in w.users.ids {
          var k :| 0 <= k < |c.memberIds| && c.memberIds[k] == x;
          FindSpec(w.users, UserKey, x);
        }
        var all := MemberViews(w.users, c.memberIds);
        OwnersAmongSpec(all, c.ownerIds);
        forall v | v in all ensures v.uId in c.memberIds {
          var k :| 0 <= k < |all| && all[k] == v;
        }
      } else {
        var k :| 0 <= k < |c.memberIds| && Find(w.users, c.memberIds[k]).None?;
        FindSpec(w.users, UserKey, c.memberIds[k]);
      }
    }
  }

  /* ---- messages ---- */

  /** Python's normalisation of a slice bound against a length `n`:
      negative bounds count from the end, and both ends are clamped. */
  function SliceIndex(i: int, n: nat): (r: nat)
    ensures r <= n
    ensures 0 <= i <= n ==> r == i
    ensures i > n ==> r == n
    ensures i < 0 ==> r == if i + n < 0 then 0 else i + n
  {
    if i < 0 then (if i + n < 0 then 0 else i + n)
    else if i > n then n
    else i
  }

  /** Python's `s[a:b]`. */
  function PySlice<T>(s: seq<T>, a: int, b: int): seq<T>
  {
    var lo := SliceIndex(a, |s|);
    var hi := SliceIndex(b, |s|);
    if lo < hi then s[lo..hi] else []
  }

  /** The end of the slice channel_messages takes. */
  function PageBound(count: int, start: int): int
  {
    if count < start + PageSize then count + 1 else start + PageSize
  }

  /** The `end` channel_messages reports: -1 once the page reaches the
      last message. */
  function PageEnd(count: int, start: int): int
  {
    if count < start + PageSize then -1 else start + PageSize
  }

  /** For a non-negative start no later than the end of a list whose
      count is its length, the page is the run from start to the end or
      to start + 50, whichever comes first. */
  lemma PageSlice<T>(s: seq<T>, start: int)
    requires 0 <= start <= |s|
    ensures var hi := if |s| < start + PageSize then |s| else start + PageSize;
      PySlice(s, start, PageBound(|s|, start)) == s[start..hi]
  {
  }

  /** Whatever the start, even a negative one, a page holds at most 50
      entries, provided the count is not negative. */
  lemma PageAtMost<T>(s: seq<T>, start: int, count: int)
    requires 0 <= count
    ensures |PySlice(s, start, PageBound(count, start))| <= PageSize
  {
  }

  /** A reaction as channel_messages shows it: with whether the caller is
      among those who reacted. */
  datatype ReactView = ReactView(reactId: int, uIds: seq<int>, isThisUserReacted: bool)

  datatype MessageView = MessageView(
    messageId: int,
    uId: int,
    message: string,
    timeCreated: int,
    reacts: seq<ReactView>,
    isPinned: bool)

  datatype Page = Page(messages: seq<MessageView>, start: int, end: int)

  function ReactViews(rs: seq<Reaction>, caller: int): seq<ReactView>
  {
    seq(|rs|, k requires 0 <= k < |rs| => ReactView(rs[k].reactId, rs[k].uIds, caller in rs[k].uIds))
  }

  function ViewOf(id: int, m: Message, caller: int): MessageView
  {
    MessageView(id, m.authorId, m.content, m.time, ReactViews(m.reactions, caller), m.pinned)
  }

  predicate AllFound(msgs: Doc<Message>, ids: seq<int>)
  {
    forall k :: 0 <= k < |ids| ==> Find(msgs, ids[k]).Some?
  }

  /** The entries of the selected messages, in the order given; a missing
      message makes the source fail reading its reactions. */
  function MessageViews(msgs: Doc<Message>, ids: seq<int>, caller: int): Result<seq<MessageView>>
  {
    if !AllFound(msgs, ids) then Err(Fault)
    else Ok(seq(|ids|, k requires 0 <= k < |ids| && AllFound(msgs, ids) => ViewOf(ids[k], Find(msgs, ids[k]).value, caller)))
  }

  /** The loop that marks, on each reaction, whether the caller reacted. */
  method MarkReactions(rs: seq<Reaction>, caller: int) returns (out: seq<ReactView>)
    ensures out == ReactViews(rs, caller)
  {
    out := [];
    var k := 0;
    while k < |rs|
      invariant 0 <= k <= |rs| && |out| == k
      invariant forall j :: 0 <= j < k ==> out[j] == ReactView(rs[j].reactId, rs[j].uIds, caller in rs[j].uIds)
    {
      out := out + [ReactView(rs[k].reactId, rs[k].uIds, caller in rs[k].uIds)];
      k := k + 1;
    }
  }

  /** The loop that turns the selected ids into entries. */
  method CollectViews(s: Persistence.Store, ids: seq<int>, caller: int) returns (r: Result<seq<MessageView>>)
    requires s.Valid()
    ensures r == MessageViews(s.Snapshot().messages, ids, caller)
  {
    var views: seq<MessageView> := [];
    var i := 0;
    while i < |ids|
      invariant 0 <= i <= |ids| && |views| == i
      invariant forall k :: 0 <= k < i ==> Find(s.messages, ids[k]).Some? && views[k] == ViewOf(ids[k], Find(s.messages, ids[k]).value, caller)
    {
      var m := s.GetMessage(ids[i]);
      if m.None? {
        assert !AllFound(s.messages, ids) by {
          assert Find(s.messages, ids[i]).None?;
        }
        assert MessageViews(s.messages, ids, caller) == Err(Fault);
        return Err(Fault);
      }
      var reacts := MarkReactions(m.value.reactions, caller);
      views := views + [MessageView(ids[i], m.value.authorId, m.value.content, m.value.time, reacts, m.value.pinned)];
      i := i + 1;
    }
    assert AllFound(s.messages, ids);
    forall k | 0 <= k < |ids| ensures views[k] == MessageViews(s.messages, ids, caller).value[k] {
    }
    assert MessageViews(s.messages, ids, caller).Ok?;
    assert |MessageViews(s.messages, ids, caller).value| == |views|;
    assert views == MessageViews(s.messages, ids, caller).value;
    r := Ok(views);
  }

  /** channel_messages: token, channel, start against the count as it is
      before the sweep, membership; then the sweep, the channel read
      again, a Python slice of its message list reversed so the newest
      comes first, and one entry per selected message. */
  function MessagesSpec(w: World, caller: int, cid: int, start: int, now: int): Outcome<Page>
  {
    match TokenValid(w, caller)
    case Err(e) => Outcome(w, Err(e))
    case Ok(valid) =>
      if !valid then Outcome(w, Err(AccessError))
      else
        match Find(w.channels, cid)
        case None => Outcome(w, Err(InputError))
        case Some(c0) =>
          if start > c0.messageCount then Outcome(w, Err(InputError))
          else if caller !in c0.memberIds then Outcome(w, Err(AccessError))
          else
            var sw := Sweep(w, now);
            if !sw.ok then Outcome(sw.world, Err(Fault))
            else
              var w1 := sw.world;
              match Find(w1.channels, cid)
              case None => Outcome(w1, Err(Fault))
              case Some(c) =>
                var ids := Reverse(PySlice(c.messageIds, start, PageBound(c.messageCount, start)));
                match MessageViews(w1.messages, ids, caller)
                case Err(e) => Outcome(w1, Err(e))
                case Ok(views) => Outcome(w1, Ok(Page(views, start, PageEnd(c.messageCount, start))))
  }

  method ChannelMessages(s: Persistence.Store, caller: int, cid: int, start: int, now: int) returns (r: Result<Page>)
    modifies s
    requires s.Valid()
    ensures s.Valid()
    ensures Outcome(s.Snapshot(), r) == MessagesSpec(old(s.Snapshot()), caller, cid, start, now)
  {
    var valid := CheckValidToken(s, caller);
    if valid.Err? {
      return Err(valid.error);
    }
    if !valid.value {
      return Err(AccessError);
    }
    var c0 := s.GetChannel(cid);
    if c0.None? {
      return Err(InputError);
    }
    if start > c0.value.messageCount {
      return Err(InputError);
    }
    if caller !in c0.value.memberIds {
      return Err(AccessError);
    }
    var swept := CheckUnsentMessages(s, now);
    if !swept {
      return Err(Fault);
    }
    var c := s.GetChannel(cid);
    if c.None? {
      return Err(Fault);
    }
    var count := c.value.messageCount;
    var ids := Reverse(PySlice(c.value.messageIds, start, PageBound(count, start)));
    var views := CollectViews(s, ids, caller);
    if views.Err? {
      return Err(views.error);
    }
    r := Ok(Page(views.value, start, PageEnd(count, start)));
  }

  /** The start is checked against the count before the sweep, and no
      later check raises InputError: for a logged-in caller and a stored
      channel, InputError comes exactly from a start past that count,
      whatever deliveries are due. */
  lemma MessagesStartCheck(w: World, caller: int, cid: int, start: int, now: int)
    requires TokenValid(w, caller) == Ok(true) && Find(w.channels, cid).Some?
    ensures MessagesSpec(w, caller, cid, start, now).result == Err(InputError) <==>
      start > Find(w.channels, cid).value.messageCount
  {
  }

  /** What page `p` of channel `c` from `start` is: the messages from
      start, at most 50 of them, newest first, each shown as stored in
      `msgs`; end is -1 exactly when the page reaches the last message. */
  ghost predicate IsPage(p: Page, c: Channel, msgs: Doc<Message>, caller: int, start: int)
  {
    var n := |c.messageIds|;
    var hi := if n < start + PageSize then n else start + PageSize;
    && 0 <= start <= n && |p.messages| == hi - start <= PageSize
    && (forall k :: 0 <= k < |p.messages| ==>
          && p.messages[k].messageId == c.messageIds[hi - 1 - k]
          && Find(msgs, c.messageIds[hi - 1 - k]).Some?
          && p.messages[k] == ViewOf(c.messageIds[hi - 1 - k], Find(msgs, c.messageIds[hi - 1 - k]).value, caller))
    && p.start == start
    && p.end == (if n < start + PageSize then -1 else start + PageSize)
  }

  /** The page cut from a channel whose count is the length of its list,
      for a start within the list, is the page IsPage describes. */
  lemma PageOf(msgs: Doc<Message>, c: Channel, caller: int, start: int)
    requires 0 <= start <= |c.messageIds| && c.messageCount == |c.messageIds|
    requires MessageViews(msgs, Reverse(PySlice(c.messageIds, start, PageBound(c.messageCount, start))), caller).Ok?
    ensures IsPage(Page(MessageViews(msgs, Reverse(PySlice(c.messageIds, start, PageBound(c.messageCount, start))), caller).value,
                        start, PageEnd(c.messageCount, start)), c, msgs, caller, start)
  {
    PageSlice(c.messageIds, start);
    var n := |c.messageIds|;
    var hi := if n < start + PageSize then n else start + PageSize;
    var ids := Reverse(PySlice(c.messageIds, start, PageBound(c.messageCount, start)));
    assert ids == Reverse(c.messageIds[start..hi]);
    ViewsAt(msgs, ids, caller);
    PageOfViews(msgs, c, caller, start, ids, MessageViews(msgs, ids, caller).value);
  }

  /** Views of the reversed run from start, entry by entry, make the page
      IsPage describes. */
  lemma PageOfViews(msgs: Doc<Message>, c: Channel, caller: int, start: int, ids: seq<int>, views: seq<MessageView>)
    requires 0 <= start <= |c.messageIds|
    requires ids == Reverse(c.messageIds[start..if |c.messageIds| < start + PageSize then |c.messageIds| else start + PageSize])
    requires |views| == |ids|
    requires forall k :: 0 <= k < |ids| ==>
      && Find(msgs, ids[k]).Some?
      && views[k].messageId == ids[k]
      && views[k] == ViewOf(ids[k], Find(msgs, ids[k]).value, caller)
    ensures IsPage(Page(views, start, PageEnd(|c.messageIds|, start)), c, msgs, caller, start)
  {
    var n := |c.messageIds|;
    var hi := if n < start + PageSize then n else start + PageSize;
    forall k | 0 <= k < |views|
      ensures views[k].messageId == c.messageIds[hi - 1 - k]
      ensures Find(msgs, c.messageIds[hi - 1 - k]).Some?
      ensures views[k] == ViewOf(c.messageIds[hi - 1 - k], Find(msgs, c.messageIds[hi - 1 - k]).value, caller)
    {
      assert ids[k] == c.messageIds[start..hi][hi - start - 1 - k] == c.messageIds[hi - 1 - k];
    }
  }

  /** Entry k of the views is the view of the k-th id, which is stored. */
  lemma ViewsAt(msgs: Doc<Message>, ids: seq<int>, caller: int)
    requires MessageViews(msgs, ids, caller).Ok?
    ensures |MessageViews(msgs, ids, caller).value| == |ids|
    ensures forall k :: 0 <= k < |ids| ==>
      && Find(msgs, ids[k]).Some?
      && MessageViews(msgs, ids, caller).value[k].messageId == ids[k]
      && MessageViews(msgs, ids, caller).value[k] == ViewOf(ids[k], Find(msgs, ids[k]).value, caller)
  {
  }

  /** What a successful read returns, step by step. */
  lemma MessagesUnfold(w: World, caller: int, cid: int, start: int, now: int)
    requires MessagesSpec(w, caller, cid, start, now).result.Ok?
    ensures Find(w.channels, cid).Some? && start <= Find(w.channels, cid).value.messageCount
    ensures Sweep(w, now).ok && Find(Sweep(w, now).world.channels, cid).Some?
    ensures var w1 := Sweep(w, now).world;
      var c := Find(w1.channels, cid).value;
      var ids := Reverse(PySlice(c.messageIds, start, PageBound(c.messageCount, start)));
      && MessageViews(w1.messages, ids, caller).Ok?
      && MessagesSpec(w, caller, cid, start, now)
         == Outcome(w1, Ok(Page(MessageViews(w1.messages, ids, caller).value, start, PageEnd(c.messageCount, start))))
  {
  }

  /** A successful read runs the sweep and changes nothing else, and
      returns the page of the swept channel that IsPage describes. */
  lemma MessagesPage(w: World, caller: int, cid: int, start: int, now: int)
    requires WorldValid(w) && CountsAgree(w) && 0 <= start
    requires MessagesSpec(w, caller, cid, start, now).result.Ok?
    ensures var o := MessagesSpec(w, caller, cid, start, now);
      && o.world == Sweep(w, now).world
      && Find(o.world.channels, cid).Some?
      && IsPage(o.result.value, Find(o.world.channels, cid).value, o.world.messages, caller, start)
  {
    MessagesUnfold(w, caller, cid, start, now);
    var w1 := Sweep(w, now).world;
    SweepChannel(w, w.unsent, now, cid);
    SweepKeepsCounts(w, now, cid);
    var c := Find(w1.channels, cid).value;
    assert c.messageCount == |c.messageIds|;
    assert start <= |c.messageIds|;
    PageOf(w1.messages, c, caller, start);
  }

  /** The read shows what the sweep delivers: a queued message of this
      channel whose time has come is in the channel's list afterwards, and
      on a first page of a channel of at most 50 messages it is shown. */
  lemma MessagesShowDelivered(w: World, caller: int, cid: int, now: int, x: int)
    requires WorldValid(w) && CountsAgree(w)
    requires MessagesSpec(w, caller, cid, 0, now).result.Ok?
    requires x in w.unsent && IsDue(w.messages, x, now) && Find(w.messages, x).value.channelId == cid
    ensures var o := MessagesSpec(w, caller, cid, 0, now);
      && x in Find(o.world.channels, cid).value.messageIds
      && (|Find(o.world.channels, cid).value.messageIds| <= PageSize ==>
            exists k :: 0 <= k < |o.result.value.messages| && o.result.value.messages[k].messageId == x)
  {
    SweepDelivers(w, now, x);
    MessagesPage(w, caller, cid, 0, now);
    var o := MessagesSpec(w, caller, cid, 0, now);
    var c := Find(o.world.channels, cid).value;
    var n := |c.messageIds|;
    if n <= PageSize {
      var j :| 0 <= j < n && c.messageIds[j] == x;
      assert o.result.value.messages[n - 1 - j].messageId == x;
    }
  }
}
