/** Search, workplace reset, permission changes, user removal and image
    urls (backend/src/other.py). The token is the caller's user id. */
module OtherService {
  import opened Wrappers
  import opened Text
  import opened Seqs
  import opened Documents
  import opened Records
  import opened Persistence
  import opened AuthService
  import opened Delivery

  /* ---- search ---- */

  /** A search hit, with the reactions as stored. */
  datatype Found = Found(messageId: int, uId: int, message: string, timeCreated: int, reacts: seq<Reaction>, isPinned: bool)

  function FoundOf(id: int, m: Message): Found
  {
    Found(id, m.authorId, m.content, m.time, m.reactions, m.pinned)
  }

  /** Whether the query, lowercased, occurs in the lowercased content. */
  predicate Matches(m: Message, query: string)
  {
    Contains(Lower(m.content), Lower(query))
  }

  /** The messages among `ids` that match, in the order of `ids`. */
  function Hits(d: Doc<Message>, ids: seq<int>, query: string): Result<seq<Found>>
    decreases |ids|
  {
    if ids == [] then Ok([])
    else
      var last := ids[|ids| - 1];
      match Hits(d, ids[..|ids| - 1], query)
      case Err(e) => Err(e)
      case Ok(prefix) =>
        match Find(d, last)
        case None => Err(Fault)
        case Some(m) => if Matches(m, query) then Ok(prefix + [FoundOf(last, m)]) else Ok(prefix)
  }

  /** search: token, then a scan of every stored message. The channels
      the caller belongs to play no part. */
  function SearchSpec(w: World, caller: int, query: string): Result<seq<Found>>
  {
    match TokenValid(w, caller)
    case Err(e) => Err(e)
    case Ok(valid) => if !valid then Err(AccessError) else Hits(w.messages, w.messages.ids, query)
  }

  method Search(s: Persistence.Store, caller: int, query: string) returns (r: Result<seq<Found>>)
    requires s.Valid()
    ensures r == SearchSpec(s.Snapshot(), caller, query)
  {
    var valid := CheckValidToken(s, caller);
    if valid.Err? {
      return Err(valid.error);
    }
    if !valid.value {
      return Err(AccessError);
    }
    var ids := s.messages.ids;
    var out: seq<Found> := [];
    var i := 0;
    while i < |ids|
      invariant 0 <= i <= |ids|
      invariant Hits(s.messages, ids[..i], query) == Ok(out)
    {
      assert ids[..i + 1][..i] == ids[..i];
      var m := s.GetMessage(ids[i]);
      if Contains(Lower(m.value.content), Lower(query)) {
        out := out + [FoundOf(ids[i], m.value)];
      }
      i := i + 1;
    }
    assert ids[..|ids|] == ids;
    r := Ok(out);
  }

  /** Over stored ids without repeats, the hits are exactly the matching
      messages, each once, in the order of the ids, shown as stored. */
  lemma HitsSpec(d: Doc<Message>, ids: seq<int>, query: string)
    requires Valid(d, MessageKey) && NoDup(ids) && (forall k :: 0 <= k < |ids| ==> ids[k] in d.ids)
    ensures Hits(d, ids, query).Ok?
    ensures forall e :: e in Hits(d, ids, query).value <==>
      e.messageId in ids && Find(d, e.messageId).Some?
      && Matches(Find(d, e.messageId).value, query) && e == FoundOf(e.messageId, Find(d, e.messageId).value)
    ensures forall i, j :: 0 <= i < j < |Hits(d, ids, query).value| ==>
      IndexOf(ids, Hits(d, ids, query).value[i].messageId) < IndexOf(ids, Hits(d, ids, query).value[j].messageId)
  {
    HitsMembers(d, ids, query);
    HitsOrder(d, ids, query);
  }

  /** The last id adds at most one hit, for itself. */
  lemma HitsUnfold(d: Doc<Message>, ids: seq<int>, init: seq<int>, last: int, query: string)
    requires ids == init + [last] && Hits(d, init, query).Ok? && Find(d, last).Some?
    ensures var m := Find(d, last).value;
      var prefix := Hits(d, init, query).value;
      Hits(d, ids, query) == Ok(if Matches(m, query) then prefix + [FoundOf(last, m)] else prefix)
  {
    assert ids[..|ids| - 1] == init && ids[|ids| - 1] == last;
  }

  /** Over stored ids, the hits are exactly the matching messages among them. */
  lemma {:induction false} HitsMembers(d: Doc<Message>, ids: seq<int>, query: string)
    requires Valid(d, MessageKey) && (forall k :: 0 <= k < |ids| ==> ids[k] in d.ids)
    ensures Hits(d, ids, query).Ok?
    ensures forall e :: e in Hits(d, ids, query).value <==>
      e.messageId in ids && Find(d, e.messageId).Some?
      && Matches(Find(d, e.messageId).value, query) && e == FoundOf(e.messageId, Find(d, e.messageId).value)
    decreases |ids|
  {
    if ids != [] {
      var init := ids[..|ids| - 1];
      var last := ids[|ids| - 1];
      assert ids == init + [last];
      HitsMembers(d, init, query);
      FindSpec(d, MessageKey, last);
      HitsUnfold(d, ids, init, last, query);
    }
  }

  /** Over stored ids without repeats, the hits come in the order of the ids. */
  lemma {:induction false} HitsOrder(d: Doc<Message>, ids: seq<int>, query: string)
    requires Valid(d, MessageKey) && NoDup(ids) && (forall k :: 0 <= k < |ids| ==> ids[k] in d.ids)
    ensures Hits(d, ids, query).Ok?
    ensures forall e :: e in Hits(d, ids, query).value ==> e.messageId in ids
    ensures forall i, j :: 0 <= i < j < |Hits(d, ids, query).value| ==>
      IndexOf(ids, Hits(d, ids, query).value[i].messageId) < IndexOf(ids, Hits(d, ids, query).value[j].messageId)
    decreases |ids|
  {
    if ids != [] {
      var init := ids[..|ids| - 1];
      var last := ids[|ids| - 1];
      assert NoDup(init);
      HitsOrder(d, init, query);
      FindSpec(d, MessageKey, last);
      assert ids == init + [last];
      HitsOrderStep(d, ids, init, last, query);
    }
  }

  /** The inductive step of HitsOrder: `ids` is `init` with `last` appended. */
  lemma HitsOrderStep(d: Doc<Message>, ids: seq<int>, init: seq<int>, last: int, query: string)
    requires ids == init + [last] && NoDup(ids) && Find(d, last).Some?
    requires Hits(d, init, query).Ok?
    requires forall e :: e in Hits(d, init, query).value ==> e.messageId in init
    requires forall i, j :: 0 <= i < j < |Hits(d, init, query).value| ==>
      IndexOf(init, Hits(d, init, query).value[i].messageId) < IndexOf(init, Hits(d, init, query).value[j].messageId)
    ensures Hits(d, ids, query).Ok?
    ensures forall e :: e in Hits(d, ids, query).value ==> e.messageId in ids
    ensures forall i, j :: 0 <= i < j < |Hits(d, ids, query).value| ==>
      IndexOf(ids, Hits(d, ids, query).value[i].messageId) < IndexOf(ids, Hits(d, ids, query).value[j].messageId)
  {
    HitsUnfold(d, ids, init, last, query);
    var m := Find(d, last).value;
    var tail := if Matches(m, query) then [FoundOf(last, m)] else [];
    assert Hits(d, ids, query).value == Hits(d, init, query).value + tail;
    assert ids[..|ids| - 1] == init && ids[|ids| - 1] == last;
    OrderedAppend(ids, Hits(d, init, query).value, tail, (e: Found) => e.messageId);
  }

  /** A logged-in caller finds, each once, every stored message whose
      content contains the query regardless of case, in id order: messages of channels
      the caller has not joined and messages still waiting to be sent
      included. */
  lemma SearchResults(w: World, caller: int, query: string)
    requires WorldValid(w) && TokenValid(w, caller) == Ok(true)
    ensures SearchSpec(w, caller, query).Ok?
    ensures forall e :: e in SearchSpec(w, caller, query).value <==>
      Find(w.messages, e.messageId).Some?
      && Matches(Find(w.messages, e.messageId).value, query)
      && e == FoundOf(e.messageId, Find(w.messages, e.messageId).value)
    ensures forall e :: e in SearchSpec(w, caller, query).value ==> e.messageId in w.messages.ids
    ensures forall i, j :: 0 <= i < j < |SearchSpec(w, caller, query).value| ==>
      IndexOf(w.messages.ids, SearchSpec(w, caller, query).value[i].messageId) < IndexOf(w.messages.ids, SearchSpec(w, caller, query).value[j].messageId)
  {
    HitsSpec(w.messages, w.messages.ids, query);
    forall x ensures Find(w.messages, x).Some? <==> x in w.messages.ids {
      FindSpec(w.messages, MessageKey, x);
    }
  }

  /** The empty query matches every stored message. */
  lemma SearchEmptyQuery(w: World, caller: int, x: int)
    requires WorldValid(w) && TokenValid(w, caller) == Ok(true) && Find(w.messages, x).Some?
    ensures SearchSpec(w, caller, "").Ok?
    ensures FoundOf(x, Find(w.messages, x).value) in SearchSpec(w, caller, "").value
  {
    SearchResults(w, caller, "");
    ContainsEmpty(Lower(Find(w.messages, x).value.content));
    assert Lower("") == "";
  }

  /* ---- workplace reset ---- */

  /** workplace_reset: the channel, message (with its queue), user and
      standup documents start again empty with their counters at 0. The
      hangman document is not reset. */
  function ResetSpec(w: World): World
  {
    w.(channels := EmptyDoc(), messages := EmptyDoc(), unsent := [], users := EmptyDoc(), standups := EmptyDoc())
  }

  method WorkplaceReset(s: Persistence.Store)
    modifies s
    requires s.Valid()
    ensures s.Valid()
    ensures s.Snapshot() == ResetSpec(old(s.Snapshot()))
  {
    s.ResetChannels();
    s.ResetMessages();
    s.ResetUsers();
    s.ResetStandups();
  }

  /** After a reset no channel, user or message is found and the next of
      each gets id 1, while every game survives, still naming its now
      missing channel. */
  lemma ResetKeepsGames(w: World)
    requires WorldValid(w)
    ensures var w' := ResetSpec(w);
      && WorldValid(w')
      && (forall y :: Find(w'.channels, y).None? && Find(w'.users, y).None? && Find(w'.messages, y).None?)
      && NextId(w'.channels) == 1 && NextId(w'.users) == 1 && NextId(w'.messages) == 1 && NextId(w'.standups) == 1
      && (forall g :: Find(w'.hangmen, g) == Find(w.hangmen, g))
      && (forall g :: Find(w.hangmen, g).Some? ==> Find(w'.channels, Find(w.hangmen, g).value.channelId).None?)
  {
    EmptyValid(ChannelKey);
    EmptyValid(UserKey);
    EmptyValid(MessageKey);
    EmptyValid(StandupKey);
  }

  /* ---- permissions ---- */

  /** userpermission_change: token, target user, a level of 1 or 2, a
      caller who is a global owner; then the target's level is set. */
  function PermissionSpec(w: World, caller: int, uid: int, level: int): Outcome<()>
  {
    match TokenValid(w, caller)
    case Err(e) => Outcome(w, Err(e))
    case Ok(valid) =>
      if !valid then Outcome(w, Err(AccessError))
      else
        match Find(w.users, uid)
        case None => Outcome(w, Err(InputError))
        case Some(target) =>
          if level != OwnerPermission && level != MemberPermission then Outcome(w, Err(InputError))
          else if Find(w.users, caller).value.permissionLevel != OwnerPermission then Outcome(w, Err(AccessError))
          else Outcome(PutUser(w, target.(permissionLevel := level)), Ok(()))
  }

  method UserPermissionChange(s: Persistence.Store, caller: int, uid: int, level: int) returns (r: Result<()>)
    modifies s
    requires s.Valid()
    ensures s.Valid()
    ensures Outcome(s.Snapshot(), r) == PermissionSpec(old(s.Snapshot()), caller, uid, level)
  {
    var valid := CheckValidToken(s, caller);
    if valid.Err? {
      return Err(valid.error);
    }
    if !valid.value {
      return Err(AccessError);
    }
    var target := s.GetUser(uid);
    if target.None? {
      return Err(InputError);
    }
    if level != OwnerPermission && level != MemberPermission {
      return Err(InputError);
    }
    var u := s.GetUser(caller);
    if u.value.permissionLevel != OwnerPermission {
      return Err(AccessError);
    }
    var _ := s.UpdateUser(uid, target.value.(permissionLevel := level));
    r := Ok(());
  }

  /** The change succeeds exactly when a logged-in global owner names a
      stored user and a level of 1 or 2; only that user's level changes. */
  lemma PermissionSuccess(w: World, caller: int, uid: int, level: int)
    requires WorldValid(w)
    ensures PermissionSpec(w, caller, uid, level).result.Ok? <==>
      && TokenValid(w, caller) == Ok(true)
      && Find(w.users, caller).value.permissionLevel == OwnerPermission
      && uid in w.users.ids && (level == OwnerPermission || level == MemberPermission)
    ensures PermissionSpec(w, caller, uid, level).result.Ok? ==>
      var w' := PermissionSpec(w, caller, uid, level).world;
      && WorldValid(w')
      && Find(w'.users, uid) == Some(Find(w.users, uid).value.(permissionLevel := level))
      && (forall x :: x != uid ==> Find(w'.users, x) == Find(w.users, x))
      && w'.channels == w.channels && w'.messages == w.messages
  {
    FindSpec(w.users, UserKey, uid);
    if PermissionSpec(w, caller, uid, level).result.Ok? {
      var target := Find(w.users, uid).value;
      ReplaceSpec(w.users, UserKey, uid, target.(permissionLevel := level));
    }
  }

  /** Changing another user's level and changing it back restores the
      world. */
  lemma PermissionRoundTrip(w: World, caller: int, uid: int, level: int)
    requires WorldValid(w) && PermissionSpec(w, caller, uid, level).result.Ok? && caller != uid
    requires Find(w.users, uid).value.permissionLevel in {OwnerPermission, MemberPermission}
    ensures var w' := PermissionSpec(w, caller, uid, level).world;
      PermissionSpec(w', caller, uid, Find(w.users, uid).value.permissionLevel) == Outcome(w, Ok(()))
  {
    var target := Find(w.users, uid).value;
    FindSpec(w.users, UserKey, uid);
    ReplaceSpec(w.users, UserKey, uid, target.(permissionLevel := level));
    assert target.(permissionLevel := level).(permissionLevel := target.permissionLevel) == target;
    ReplaceRestore(w.users, UserKey, uid, target.(permissionLevel := level));
  }

  /** A global owner may demote themselves, and is then refused every
      further change. */
  lemma SelfDemotion(w: World, caller: int, uid: int, level: int)
    requires WorldValid(w) && PermissionSpec(w, caller, caller, MemberPermission).result.Ok?
    requires uid in w.users.ids && (level == OwnerPermission || level == MemberPermission)
    ensures PermissionSpec(PermissionSpec(w, caller, caller, MemberPermission).world, caller, uid, level).result == Err(AccessError)
  {
    PermissionSuccess(w, caller, caller, MemberPermission);
    FindSpec(w.users, UserKey, uid);
  }

  /* ---- user removal ---- */

  /** The source fails on a channel where the user is an owner but not a
      member: it removes the user from both lists. */
  predicate PurgeFails(c: Channel, uid: int)
  {
    uid in c.ownerIds && uid !in c.memberIds
  }

  /** A channel after the user's removal: None when it is deleted because
      both lists became empty. */
  function Purged(c: Channel, uid: int): Option<Channel>
    requires !PurgeFails(c, uid)
  {
    if uid in c.ownerIds then
      var c' := c.(ownerIds := RemoveFirst(c.ownerIds, uid), memberIds := RemoveFirst(c.memberIds, uid));
      if c'.memberIds == [] && c'.ownerIds == [] then None else Some(c')
    else if uid in c.memberIds then Some(c.(memberIds := RemoveFirst(c.memberIds, uid)))
    else Some(c)
  }

  /** One iteration of user_remove's loop over the channels. */
  function PurgeChannel(w: World, cid: int, uid: int): Step
  {
    match Find(w.channels, cid)
    case None => Step(w, false)
    case Some(c) =>
      if PurgeFails(c, uid) then Step(w, false)
      else if uid !in c.ownerIds && uid !in c.memberIds then Step(w, true)
      else
        match Purged(c, uid)
        case None => Step(w.(channels := Remove(w.channels, cid)), true)
        case Some(c') => Step(PutChannel(w, c'), true)
  }

  function PurgeFrom(w: World, cids: seq<int>, uid: int): Step
    decreases |cids|
  {
    if cids == [] then Step(w, true)
    else
      var s1 := PurgeChannel(w, cids[0], uid);
      if !s1.ok then s1 else PurgeFrom(s1.world, cids[1..], uid)
  }

  /** user_remove: the target must be a stored user, then the token, then
      a caller who is a global owner; the user is deleted and then taken
      out of every channel. A failure inside the loop keeps what was
      already written, the deletion included. */
  function UserRemoveSpec(w: World, caller: int, uid: int): Outcome<()>
  {
    if uid !in w.users.ids then Outcome(w, Err(InputError))
    else
      match TokenValid(w, caller)
      case Err(e) => Outcome(w, Err(e))
      case Ok(valid) =>
        if !valid then Outcome(w, Err(InputError))
        else if Find(w.users, caller).value.permissionLevel != OwnerPermission then Outcome(w, Err(AccessError))
        else
          var w1 := w.(users := Remove(w.users, uid));
          var st := PurgeFrom(w1, w1.channels.ids, uid);
          if !st.ok then Outcome(st.world, Err(Fault)) else Outcome(st.world, Ok(()))
  }

  method PurgeStep(s: Persistence.Store, cid: int, uid: int) returns (ok: bool)
    modifies s
    requires s.Valid()
    ensures s.Valid()
    ensures Step(s.Snapshot(), ok) == PurgeChannel(old(s.Snapshot()), cid, uid)
  {
    var c := s.GetChannel(cid);
    if c.None? {
      return false;
    }
    if uid in c.value.ownerIds {
      if uid !in c.value.memberIds {
        return false;
      }
      var c' := c.value.(ownerIds := RemoveFirst(c.value.ownerIds, uid), memberIds := RemoveFirst(c.value.memberIds, uid));
      if c'.memberIds == [] && c'.ownerIds == [] {
        assert Purged(c.value, uid) == None;
        var _ := s.DeleteChannel(cid);
      } else {
        assert Purged(c.value, uid) == Some(c') && c'.channelId == cid;
        var _ := s.UpdateChannel(cid, c');
      }
    } else if uid in c.value.memberIds {
      var c' := c.value.(memberIds := RemoveFirst(c.value.memberIds, uid));
      assert Purged(c.value, uid) == Some(c') && c'.channelId == cid;
      var _ := s.UpdateChannel(cid, c');
    }
    ok := true;
  }

  method UserRemove(s: Persistence.Store, caller: int, uid: int) returns (r: Result<()>)
    modifies s
    requires s.Valid()
    ensures s.Valid()
    ensures Outcome(s.Snapshot(), r) == UserRemoveSpec(old(s.Snapshot()), caller, uid)
  {
    if uid !in s.users.ids {
      return Err(InputError);
    }
    var valid := CheckValidToken(s, caller);
    if valid.Err? {
      return Err(valid.error);
    }
    if !valid.value {
      return Err(InputError);
    }
    var u := s.GetUser(caller);
    if u.value.permissionLevel != OwnerPermission {
      return Err(AccessError);
    }
    var _ := s.DeleteUser(uid);
    var cids := s.channels.ids;
    ghost var w0 := s.Snapshot();
    var i := 0;
    while i < |cids|
      invariant 0 <= i <= |cids|
      invariant s.Valid()
      invariant PurgeFrom(w0, cids, uid) == PurgeFrom(s.Snapshot(), cids[i..], uid)
    {
      assert cids[i..][1..] == cids[i + 1..];
      var stepOk := PurgeStep(s, cids[i], uid);
      if !stepOk {
        return Err(Fault);
      }
      i := i + 1;
    }
    r := Ok(());
  }

  /** One iteration changes only the channel it visits, and keeps the
      other channel ids. */
  lemma PurgeChannelSpec(w: World, cid: int, uid: int)
    requires WorldValid(w)
    ensures var s1 := PurgeChannel(w, cid, uid);
      && WorldValid(s1.world)
      && (s1.ok <==> Find(w.channels, cid).Some? && !PurgeFails(Find(w.channels, cid).value, uid))
      && (s1.ok ==> Find(s1.world.channels, cid) == Purged(Find(w.channels, cid).value, uid))
      && (forall y :: y != cid ==> Find(s1.world.channels, y) == Find(w.channels, y))
      && (forall y :: y != cid ==> (y in s1.world.channels.ids <==> y in w.channels.ids))
      && s1.world.users == w.users && s1.world.messages == w.messages && s1.world.unsent == w.unsent
  {
    FindSpec(w.channels, ChannelKey, cid);
    RemoveSpec(w.channels, ChannelKey, cid);
    if Find(w.channels, cid).Some? {
      var c := Find(w.channels, cid).value;
      if !PurgeFails(c, uid) && (uid in c.ownerIds || uid in c.memberIds) {
        match Purged(c, uid)
        case None =>
          RemoveFirstNoDup(w.channels.ids, cid);
        case Some(c') =>
          ReplaceSpec(w.channels, ChannelKey, cid, c');
      }
    }
  }

  /** The loop over distinct stored channel ids succeeds exactly when no
      visited channel has the user as an owner but not as a member; then
      each visited channel is as `Purged` says and every other is kept. */
  lemma {:induction false} PurgeFromSpec(w: World, cids: seq<int>, uid: int)
    requires WorldValid(w) && NoDup(cids) && (forall k :: 0 <= k < |cids| ==> cids[k] in w.channels.ids)
    ensures var s := PurgeFrom(w, cids, uid);
      && WorldValid(s.world)
      && s.world.users == w.users && s.world.messages == w.messages && s.world.unsent == w.unsent
      && (s.ok <==> forall k :: 0 <= k < |cids| ==> Find(w.channels, cids[k]).Some? && !PurgeFails(Find(w.channels, cids[k]).value, uid))
      && (s.ok ==> forall k :: 0 <= k < |cids| ==>
            Find(w.channels, cids[k]).Some? && Find(s.world.channels, cids[k]) == Purged(Find(w.channels, cids[k]).value, uid))
      && (s.ok ==> forall y :: y !in cids ==> Find(s.world.channels, y) == Find(w.channels, y))
    decreases |cids|
  {
    if cids != [] {
      var x := cids[0];
      var rest := cids[1..];
      PurgeChannelSpec(w, x, uid);
      FindSpec(w.channels, ChannelKey, x);
      var s1 := PurgeChannel(w, x, uid);
      if s1.ok {
        var w1 := s1.world;
        assert NoDup(rest);
        forall k | 0 <= k < |rest| ensures rest[k] in w1.channels.ids && rest[k] != x {
          assert rest[k] == cids[k + 1];
        }
        PurgeFromSpec(w1, rest, uid);
        forall k | 0 <= k < |rest| ensures Find(w1.channels, rest[k]) == Find(w.channels, rest[k]) {
          assert rest[k] == cids[k + 1];
        }
        var s := PurgeFrom(w1, rest, uid);
        assert PurgeFrom(w, cids, uid) == s;
        assert x !in rest;
        if s.ok {
          forall k | 0 <= k < |cids|
            ensures Find(w.channels, cids[k]).Some? && Find(s.world.channels, cids[k]) == Purged(Find(w.channels, cids[k]).value, uid)
          {
            if k > 0 {
              assert cids[k] == rest[k - 1];
            }
          }
        } else {
          var k :| 0 <= k < |rest| && !(Find(w1.channels, rest[k]).Some? && !PurgeFails(Find(w1.channels, rest[k]).value, uid));
          assert cids[k + 1] == rest[k];
        }
      }
    }
  }

  /** Removal succeeds exactly when a logged-in global owner removes a
      stored user who, in every channel they own, is also a member; the
      user is then gone and every channel is as `Purged` says. An unknown
      target or a logged-out caller is an InputError and a caller who is
      not a global owner an AccessError, all with nothing changed. */
  lemma UserRemoveSuccess(w: World, caller: int, uid: int)
    requires WorldValid(w)
    ensures UserRemoveSpec(w, caller, uid).result.Ok? <==>
      && uid in w.users.ids
      && TokenValid(w, caller) == Ok(true)
      && Find(w.users, caller).value.permissionLevel == OwnerPermission
      && (forall y :: Find(w.channels, y).Some? ==> !PurgeFails(Find(w.channels, y).value, uid))
    ensures uid !in w.users.ids ==> UserRemoveSpec(w, caller, uid) == Outcome(w, Err(InputError))
    ensures uid in w.users.ids && TokenValid(w, caller) == Ok(false) ==> UserRemoveSpec(w, caller, uid) == Outcome(w, Err(InputError))
    ensures uid in w.users.ids && TokenValid(w, caller) == Ok(true) && Find(w.users, caller).value.permissionLevel != OwnerPermission ==>
      UserRemoveSpec(w, caller, uid) == Outcome(w, Err(AccessError))
    ensures UserRemoveSpec(w, caller, uid).result.Ok? ==>
      var w' := UserRemoveSpec(w, caller, uid).world;
      && WorldValid(w')
      && uid !in w'.users.ids && Find(w'.users, uid).None?
      && (forall x :: x != uid ==> Find(w'.users, x) == Find(w.users, x))
      && (forall y :: Find(w'.channels, y) == if Find(w.channels, y).Some? then Purged(Find(w.channels, y).value, uid) else None)
      && w'.messages == w.messages
  {
    if uid in w.users.ids && TokenValid(w, caller) == Ok(true) && Find(w.users, caller).value.permissionLevel == OwnerPermission {
      var w1 := w.(users := Remove(w.users, uid));
      RemoveSpec(w.users, UserKey, uid);
      RemoveFirstNoDup(w.users.ids, uid);
      assert WorldValid(w1);
      PurgeFromSpec(w1, w1.channels.ids, uid);
      forall y ensures Find(w.channels, y).Some? <==> y in w.channels.ids {
        FindSpec(w.channels, ChannelKey, y);
      }
      var s := PurgeFrom(w1, w1.channels.ids, uid);
      if s.ok {
        forall y ensures Find(s.world.channels, y) == if Find(w.channels, y).Some? then Purged(Find(w.channels, y).value, uid) else None {
          if y in w.channels.ids {
            var k := IndexOf(w.channels.ids, y);
          }
        }
      } else {
        var k :| 0 <= k < |w.channels.ids| && !(Find(w.channels, w.channels.ids[k]).Some? && !PurgeFails(Find(w.channels, w.channels.ids[k]).value, uid));
        assert !(forall y :: Find(w.channels, y).Some? ==> !PurgeFails(Find(w.channels, y).value, uid));
      }
    }
  }

  /** A channel in which the user holds one ownership and one membership,
      or one membership only, no longer names the user afterwards. */
  lemma PurgedDropsUser(c: Channel, uid: int)
    requires !PurgeFails(c, uid)
    requires multiset(c.ownerIds)[uid] <= 1 && multiset(c.memberIds)[uid] <= 1
    ensures Purged(c, uid).Some? ==> uid !in Purged(c, uid).value.ownerIds && uid !in Purged(c, uid).value.memberIds
  {
    if uid in c.ownerIds {
      assert multiset(RemoveFirst(c.ownerIds, uid))[uid] == 0;
      assert multiset(RemoveFirst(c.memberIds, uid))[uid] == 0;
    } else if uid in c.memberIds {
      assert multiset(RemoveFirst(c.memberIds, uid))[uid] == 0;
    }
  }

  /** Removing a user who owns a channel without being its member fails,
      but only after the user has already been deleted. */
  lemma RemoveOwnerNonMemberFaults(w: World, caller: int, uid: int, cid: int)
    requires WorldValid(w) && uid in w.users.ids && uid != caller
    requires TokenValid(w, caller) == Ok(true) && Find(w.users, caller).value.permissionLevel == OwnerPermission
    requires Find(w.channels, cid).Some? && PurgeFails(Find(w.channels, cid).value, uid)
    ensures UserRemoveSpec(w, caller, uid).result == Err(Fault)
    ensures uid !in UserRemoveSpec(w, caller, uid).world.users.ids
    ensures Find(UserRemoveSpec(w, caller, uid).world.users, caller) == Find(w.users, caller)
  {
    UserRemoveSuccess(w, caller, uid);
    var w1 := w.(users := Remove(w.users, uid));
    RemoveSpec(w.users, UserKey, uid);
    RemoveFirstNoDup(w.users.ids, uid);
    PurgeFromSpec(w1, w1.channels.ids, uid);
  }

  /* ---- image urls ---- */

  /** create_img_url. */
  function ImageUrl(baseUrl: string, filename: string): string
  {
    baseUrl + "/static/images/" + filename
  }

  /** The url starts with the base, ends with the file name, and tells
      apart any two file names under the same base. */
  lemma ImageUrlParts(baseUrl: string, f1: string, f2: string)
    ensures var u := ImageUrl(baseUrl, f1);
      && |u| == |baseUrl| + 15 + |f1|
      && u[..|baseUrl|] == baseUrl && u[|baseUrl|..|baseUrl| + 15] == "/static/images/" && u[|baseUrl| + 15..] == f1
    ensures ImageUrl(baseUrl, f1) == ImageUrl(baseUrl, f2) ==> f1 == f2
  {
    var u1 := ImageUrl(baseUrl, f1);
    var u2 := ImageUrl(baseUrl, f2);
    assert u1[|baseUrl| + 15..] == f1;
    assert u2[|baseUrl| + 15..] == f2;
  }
}
