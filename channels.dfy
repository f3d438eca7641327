/** Channel lists and channel creation (backend/src/channels.py). The
    token is the caller's user id. */
module ChannelsService {
  import opened Wrappers
  import opened Seqs
  import opened Documents
  import opened Records
  import opened Persistence
  import opened AuthService

  /** A channel name has at most this many characters. */
  const MaxChannelNameLength := 20

  /** One entry of a channel list. */
  datatype ChannelSummary = ChannelSummary(channelId: int, name: string)

  /** The channels among `ids` whose owners or members include `uid`, in
      the order of `ids`; a missing id makes the source fail reading the
      record. */
  function Joined(d: Doc<Channel>, ids: seq<int>, uid: int): Result<seq<ChannelSummary>>
    decreases |ids|
  {
    if ids == [] then Ok([])
    else
      var last := ids[|ids| - 1];
      match Joined(d, ids[..|ids| - 1], uid)
      case Err(e) => Err(e)
      case Ok(prefix) =>
        match Find(d, last)
        case None => Err(Fault)
        case Some(c) =>
          if uid in c.ownerIds || uid in c.memberIds then Ok(prefix + [ChannelSummary(last, c.name)])
          else Ok(prefix)
  }

  /** Every channel among `ids`, in that order. */
  function Everything(d: Doc<Channel>, ids: seq<int>): Result<seq<ChannelSummary>>
    decreases |ids|
  {
    if ids == [] then Ok([])
    else
      var last := ids[|ids| - 1];
      match Everything(d, ids[..|ids| - 1])
      case Err(e) => Err(e)
      case Ok(prefix) =>
        match Find(d, last)
        case None => Err(Fault)
        case Some(c) => Ok(prefix + [ChannelSummary(last, c.name)])
  }

  /** channels_list: a caller whose token is not valid gets InputError. */
  function ListSpec(w: World, caller: int): Result<seq<ChannelSummary>>
  {
    match TokenValid(w, caller)
    case Err(e) => Err(e)
    case Ok(valid) => if !valid then Err(InputError) else Joined(w.channels, w.channels.ids, caller)
  }

  /** channels_listall. */
  function ListAllSpec(w: World, caller: int): Result<seq<ChannelSummary>>
  {
    match TokenValid(w, caller)
    case Err(e) => Err(e)
    case Ok(valid) => if !valid then Err(InputError) else Everything(w.channels, w.channels.ids)
  }

  method ChannelsList(s: Persistence.Store, caller: int) returns (r: Result<seq<ChannelSummary>>)
    requires s.Valid()
    ensures r == ListSpec(s.Snapshot(), caller)
  {
    var valid := CheckValidToken(s, caller);
    if valid.Err? {
      return Err(valid.error);
    }
    if !valid.value {
      return Err(InputError);
    }
    var ids := s.channels.ids;
    var out: seq<ChannelSummary> := [];
    var i := 0;
    while i < |ids|
      invariant 0 <= i <= |ids|
      invariant Joined(s.channels, ids[..i], caller) == Ok(out)
    {
      assert ids[..i + 1][..i] == ids[..i];
      var c := s.GetChannel(ids[i]);
      if caller in c.value.ownerIds {
        out := out + [ChannelSummary(ids[i], c.value.name)];
      } else if caller in c.value.memberIds {
        out := out + [ChannelSummary(ids[i], c.value.name)];
      }
      i := i + 1;
    }
    assert ids[..|ids|] == ids;
    r := Ok(out);
  }

  method ChannelsListAll(s: Persistence.Store, caller: int) returns (r: Result<seq<ChannelSummary>>)
    requires s.Valid()
    ensures r == ListAllSpec(s.Snapshot(), caller)
  {
    var valid := CheckValidToken(s, caller);
    if valid.Err? {
      return Err(valid.error);
    }
    if !valid.value {
      return Err(InputError);
    }
    var out: seq<ChannelSummary> := [];
    var ids := s.channels.ids;
    var i := 0;
    while i < |ids|
      invariant 0 <= i <= |ids|
      invariant Everything(s.channels, ids[..i]) == Ok(out)
    {
      assert ids[..i + 1][..i] == ids[..i];
      var c := s.GetChannel(ids[i]);
      out := out + [ChannelSummary(ids[i], c.value.name)];
      i := i + 1;
    }
    assert ids[..|ids|] == ids;
    r := Ok(out);
  }

  /** Over stored ids without repeats, the list holds, each once and in
      the order of the ids, exactly the channels the user owns or is a
      member of. */
  lemma JoinedSpec(d: Doc<Channel>, ids: seq<int>, uid: int)
    requires Valid(d, ChannelKey) && NoDup(ids) && (forall k :: 0 <= k < |ids| ==> ids[k] in d.ids)
    ensures Joined(d, ids, uid).Ok?
    ensures forall e :: e in Joined(d, ids, uid).value <==>
      && e.channelId in ids && Find(d, e.channelId).Some?
      && e.name == Find(d, e.channelId).value.name
      && (uid in Find(d, e.channelId).value.ownerIds || uid in Find(d, e.channelId).value.memberIds)
    ensures forall i, j :: 0 <= i < j < |Joined(d, ids, uid).value| ==>
      IndexOf(ids, Joined(d, ids, uid).value[i].channelId) < IndexOf(ids, Joined(d, ids, uid).value[j].channelId)
  {
    JoinedMembers(d, ids, uid);
    JoinedOrder(d, ids, uid);
  }

  /** The last id adds at most one entry, for itself. */
  lemma JoinedUnfold(d: Doc<Channel>, ids: seq<int>, init: seq<int>, last: int, uid: int)
    requires ids == init + [last] && Joined(d, init, uid).Ok? && Find(d, last).Some?
    ensures var c := Find(d, last).value;
      var prefix := Joined(d, init, uid).value;
      Joined(d, ids, uid) == Ok(if uid in c.ownerIds || uid in c.memberIds then prefix + [ChannelSummary(last, c.name)] else prefix)
  {
    assert ids[..|ids| - 1] == init && ids[|ids| - 1] == last;
  }

  /** Over stored ids, the list holds exactly the user's channels among them. */
  lemma {:induction false} JoinedMembers(d: Doc<Channel>, ids: seq<int>, uid: int)
    requires Valid(d, ChannelKey) && (forall k :: 0 <= k < |ids| ==> ids[k] in d.ids)
    ensures Joined(d, ids, uid).Ok?
    ensures forall e :: e in Joined(d, ids, uid).value <==>
      && e.channelId in ids && Find(d, e.channelId).Some?
      && e.name == Find(d, e.channelId).value.name
      && (uid in Find(d, e.channelId).value.ownerIds || uid in Find(d, e.channelId).value.memberIds)
    decreases |ids|
  {
    if ids != [] {
      var init := ids[..|ids| - 1];
      var last := ids[|ids| - 1];
      assert ids == init + [last];
      JoinedMembers(d, init, uid);
      FindSpec(d, ChannelKey, last);
      JoinedUnfold(d, ids, init, last, uid);
    }
  }

  /** Over stored ids without repeats, the list comes in the order of the ids. */
  lemma {:induction false} JoinedOrder(d: Doc<Channel>, ids: seq<int>, uid: int)
    requires Valid(d, ChannelKey) && NoDup(ids) && (forall k :: 0 <= k < |ids| ==> ids[k] in d.ids)
    ensures Joined(d, ids, uid).Ok?
    ensures forall e :: e in Joined(d, ids, uid).value ==> e.channelId in ids
    ensures forall i, j :: 0 <= i < j < |Joined(d, ids, uid).value| ==>
      IndexOf(ids, Joined(d, ids, uid).value[i].channelId) < IndexOf(ids, Joined(d, ids, uid).value[j].channelId)
    decreases |ids|
  {
    if ids != [] {
      var init := ids[..|ids| - 1];
      var last := ids[|ids| - 1];
      assert ids == init + [last];
      assert NoDup(init);
      JoinedOrder(d, init, uid);
      FindSpec(d, ChannelKey, last);
      JoinedOrderStep(d, ids, init, last, uid);
    }
  }

  /** The inductive step of JoinedOrder: `ids` is `init` with `last` appended. */
  lemma JoinedOrderStep(d: Doc<Channel>, ids: seq<int>, init: seq<int>, last: int, uid: int)
    requires ids == init + [last] && NoDup(ids) && Find(d, last).Some?
    requires Joined(d, init, uid).Ok?
    requires forall e :: e in Joined(d, init, uid).value ==> e.channelId in init
    requires forall i, j :: 0 <= i < j < |Joined(d, init, uid).value| ==>
      IndexOf(init, Joined(d, init, uid).value[i].channelId) < IndexOf(init, Joined(d, init, uid).value[j].channelId)
    ensures Joined(d, ids, uid).Ok?
    ensures forall e :: e in Joined(d, ids, uid).value ==> e.channelId in ids
    ensures forall i, j :: 0 <= i < j < |Joined(d, ids, uid).value| ==>
      IndexOf(ids, Joined(d, ids, uid).value[i].channelId) < IndexOf(ids, Joined(d, ids, uid).value[j].channelId)
  {
    JoinedUnfold(d, ids, init, last, uid);
    var c := Find(d, last).value;
    var tail := if uid in c.ownerIds || uid in c.memberIds then [ChannelSummary(last, c.name)] else [];
    assert Joined(d, ids, uid).value == Joined(d, init, uid).value + tail;
    assert ids[..|ids| - 1] == init && ids[|ids| - 1] == last;
    OrderedAppend(ids, Joined(d, init, uid).value, tail, (e: ChannelSummary) => e.channelId);
  }

  /** Over stored ids, listall has one entry per id, in order, with the
      stored name. */
  lemma {:induction false} EverythingSpec(d: Doc<Channel>, ids: seq<int>)
    requires Valid(d, ChannelKey) && (forall k :: 0 <= k < |ids| ==> ids[k] in d.ids)
    ensures Everything(d, ids).Ok? && |Everything(d, ids).value| == |ids|
    ensures forall k :: 0 <= k < |ids| ==>
      Find(d, ids[k]).Some? && Everything(d, ids).value[k] == ChannelSummary(ids[k], Find(d, ids[k]).value.name)
    decreases |ids|
  {
    if ids != [] {
      var init := ids[..|ids| - 1];
      EverythingSpec(d, init);
      FindSpec(d, ChannelKey, ids[|ids| - 1]);
      forall k | 0 <= k < |init| ensures ids[k] == init[k] {
      }
    }
  }

  /** channels_list for a logged-in caller: every channel the caller owns
      or is a member of, each once and in id order; an owner who is not a
      member is listed too. */
  lemma ListContents(w: World, caller: int)
    requires WorldValid(w) && TokenValid(w, caller) == Ok(true)
    ensures ListSpec(w, caller).Ok?
    ensures forall e :: e in ListSpec(w, caller).value <==>
      && Find(w.channels, e.channelId).Some?
      && e.name == Find(w.channels, e.channelId).value.name
      && (caller in Find(w.channels, e.channelId).value.ownerIds || caller in Find(w.channels, e.channelId).value.memberIds)
    ensures forall e :: e in ListSpec(w, caller).value ==> e.channelId in w.channels.ids
    ensures forall i, j :: 0 <= i < j < |ListSpec(w, caller).value| ==>
      IndexOf(w.channels.ids, ListSpec(w, caller).value[i].channelId) < IndexOf(w.channels.ids, ListSpec(w, caller).value[j].channelId)
  {
    JoinedSpec(w.channels, w.channels.ids, caller);
    forall y ensures Find(w.channels, y).Some? <==> y in w.channels.ids {
      FindSpec(w.channels, ChannelKey, y);
    }
  }

  /** channels_listall for a logged-in caller: every channel in id order,
      the same for every such caller, and a superset of each caller's
      channels_list. */
  lemma ListAllContents(w: World, caller: int, other: int)
    requires WorldValid(w) && TokenValid(w, caller) == Ok(true) && TokenValid(w, other) == Ok(true)
    ensures ListAllSpec(w, caller).Ok? && |ListAllSpec(w, caller).value| == |w.channels.ids|
    ensures forall k :: 0 <= k < |w.channels.ids| ==>
      && Find(w.channels, w.channels.ids[k]).Some?
      && ListAllSpec(w, caller).value[k] == ChannelSummary(w.channels.ids[k], Find(w.channels, w.channels.ids[k]).value.name)
    ensures ListAllSpec(w, other) == ListAllSpec(w, caller)
    ensures ListSpec(w, caller).Ok?
    ensures forall e :: e in ListSpec(w, caller).value ==> e in ListAllSpec(w, caller).value
  {
    EverythingSpec(w.channels, w.channels.ids);
    ListContents(w, caller);
    var all := ListAllSpec(w, caller).value;
    forall e | e in ListSpec(w, caller).value ensures e in all {
      FindSpec(w.channels, ChannelKey, e.channelId);
      var k := IndexOf(w.channels.ids, e.channelId);
      assert all[k] == e;
    }
  }

  /* ---- create ---- */

  /** channels_create: token, then a name that is given, not longer than
      20 characters and not empty; the caller becomes the one owner and
      the one member of a new channel, private when not public. */
  function CreateSpec(w: World, caller: int, name: Option<string>, isPublic: bool): Outcome<int>
  {
    match TokenValid(w, caller)
    case Err(e) => Outcome(w, Err(e))
    case Ok(valid) =>
      if !valid then Outcome(w, Err(InputError))
      else
        match name
        case None => Outcome(w, Err(InputError))
        case Some(n) =>
          if |n| > MaxChannelNameLength then Outcome(w, Err(InputError))
          else if |n| == 0 then Outcome(w, Err(InputError))
          else
            var id := NextId(w.channels);
            Outcome(w.(channels := Insert(w.channels, NewChannel(id, n, !isPublic, caller))), Ok(id))
  }

  method ChannelsCreate(s: Persistence.Store, caller: int, name: Option<string>, isPublic: bool) returns (r: Result<int>)
    modifies s
    requires s.Valid()
    ensures s.Valid()
    ensures Outcome(s.Snapshot(), r) == CreateSpec(old(s.Snapshot()), caller, name, isPublic)
  {
    var valid := CheckValidToken(s, caller);
    if valid.Err? {
      return Err(valid.error);
    }
    if !valid.value {
      return Err(InputError);
    }
    if name.None? {
      return Err(InputError);
    }
    if |name.value| > MaxChannelNameLength {
      return Err(InputError);
    }
    if |name.value| == 0 {
      return Err(InputError);
    }
    var id := s.CreateChannel(name.value, !isPublic, caller);
    r := Ok(id);
  }

  /** Creation succeeds exactly for a logged-in caller and a name of 1 to
      20 characters; the new channel has a fresh id, the caller as sole
      owner and member, no messages, and nothing else changes. */
  lemma CreateSuccess(w: World, caller: int, name: Option<string>, isPublic: bool)
    requires WorldValid(w)
    ensures CreateSpec(w, caller, name, isPublic).result.Ok? <==>
      TokenValid(w, caller) == Ok(true) && name.Some? && 1 <= |name.value| <= MaxChannelNameLength
    ensures CreateSpec(w, caller, name, isPublic).result.Ok? ==>
      var o := CreateSpec(w, caller, name, isPublic);
      var id := o.result.value;
      && WorldValid(o.world)
      && id !in w.channels.ids && o.world.channels.ids == w.channels.ids + [id]
      && Find(o.world.channels, id) == Some(Channel(id, name.value, !isPublic, [caller], [caller], 0, false, None, None, []))
      && (forall y :: y != id ==> Find(o.world.channels, y) == Find(w.channels, y))
      && o.world.users == w.users && o.world.messages == w.messages
  {
    if CreateSpec(w, caller, name, isPublic).result.Ok? {
      var id := NextId(w.channels);
      InsertSpec(w.channels, ChannelKey, NewChannel(id, name.value, !isPublic, caller));
    }
  }

  /** A channel just created is on its creator's list and on everyone's
      full list. */
  lemma CreateThenListed(w: World, caller: int, name: Option<string>, isPublic: bool)
    requires WorldValid(w) && CreateSpec(w, caller, name, isPublic).result.Ok?
    ensures var o := CreateSpec(w, caller, name, isPublic);
      && ListSpec(o.world, caller).Ok?
      && ChannelSummary(o.result.value, name.value) in ListSpec(o.world, caller).value
      && ListAllSpec(o.world, caller).Ok?
      && ChannelSummary(o.result.value, name.value) in ListAllSpec(o.world, caller).value
  {
    CreateSuccess(w, caller, name, isPublic);
    var o := CreateSpec(w, caller, name, isPublic);
    assert TokenValid(o.world, caller) == Ok(true);
    ListAllContents(o.world, caller, caller);
    ListContents(o.world, caller);
  }
}
