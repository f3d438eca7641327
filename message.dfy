/** Messages (backend/src/message.py): send, send later, react, unreact,
    pin, unpin, remove and edit. The token is the caller's user id; `now`
    is the time of the call. */
module MessageService {
  import opened Wrappers
  import opened Seqs
  import opened Documents
  import opened Records
  import opened Persistence
  import opened AuthService
  import opened Delivery

  /** A message may have at most this many characters. */
  const MaxMessageLength := 1000
  /** The only react id the handlers accept. */
  const ThumbsUp := 1

  /* ---- sending ---- */

  /** message_send: token, length, sweep of the queue, channel, membership;
      then a new message stamped `now` is appended to the channel. */
  function SendSpec(w: World, caller: int, cid: int, text: string, now: int): Outcome<int>
  {
    match TokenValid(w, caller)
    case Err(e) => Outcome(w, Err(e))
    case Ok(valid) =>
      if !valid then Outcome(w, Err(AccessError))
      else if |text| > MaxMessageLength then Outcome(w, Err(InputError))
      else
        var sw := Sweep(w, now);
        if !sw.ok then Outcome(sw.world, Err(Fault))
        else
          var w1 := sw.world;
          match Find(w1.channels, cid)
          case None => Outcome(w1, Err(Fault))
          case Some(c) =>
            if caller !in c.memberIds then Outcome(w1, Err(AccessError))
            else
              var id := NextId(w1.messages);
              var w2 := w1.(messages := Insert(w1.messages, NewMessage(id, caller, cid, text, now)));
              Outcome(PutChannel(w2, c.(messageIds := c.messageIds + [id], messageCount := c.messageCount + 1)), Ok(id))
  }

  method MessageSend(s: Persistence.Store, caller: int, cid: int, text: string, now: int) returns (r: Result<int>)
    modifies s
    requires s.Valid()
    ensures s.Valid()
    ensures Outcome(s.Snapshot(), r) == SendSpec(old(s.Snapshot()), caller, cid, text, now)
  {
    var valid := CheckValidToken(s, caller);
    if valid.Err? {
      return Err(valid.error);
    }
    if !valid.value {
      return Err(AccessError);
    }
    if |text| > MaxMessageLength {
      return Err(InputError);
    }
    var swept := CheckUnsentMessages(s, now);
    if !swept {
      return Err(Fault);
    }
    var c := s.GetChannel(cid);
    if c.None? {
      return Err(Fault);
    }
    if caller !in c.value.memberIds {
      return Err(AccessError);
    }
    var id := s.CreateMessage(caller, text, cid, now);
    var c' := c.value.(messageIds := c.value.messageIds + [id], messageCount := c.value.messageCount + 1);
    var _ := s.UpdateChannel(cid, c');
    r := Ok(id);
  }

  /** A successful send stores a new message under a fresh id, with the
      caller as author and the time of the call, and appends that id to
      the channel's list (as it stands after the sweep). */
  lemma SendSuccess(w: World, caller: int, cid: int, text: string, now: int)
    requires WorldValid(w) && SendSpec(w, caller, cid, text, now).result.Ok?
    ensures TokenValid(w, caller) == Ok(true) && |text| <= MaxMessageLength
    ensures Sweep(w, now).ok && Find(Sweep(w, now).world.channels, cid).Some?
    ensures caller in Find(Sweep(w, now).world.channels, cid).value.memberIds
    ensures WorldValid(SendSpec(w, caller, cid, text, now).world)
    ensures SendSpec(w, caller, cid, text, now).result == Ok(NextId(w.messages)) && NextId(w.messages) !in w.messages.ids
    ensures Find(SendSpec(w, caller, cid, text, now).world.messages, NextId(w.messages))
      == Some(NewMessage(NextId(w.messages), caller, cid, text, now))
    ensures var before := Find(Sweep(w, now).world.channels, cid).value;
      Find(SendSpec(w, caller, cid, text, now).world.channels, cid)
      == Some(before.(messageIds := before.messageIds + [NextId(w.messages)], messageCount := before.messageCount + 1))
    ensures SendSpec(w, caller, cid, text, now).world.unsent == Sweep(w, now).world.unsent
  {
    SendWrites(w, caller, cid, text, now);
    SweepFrame(w, w.unsent, now);
    InsertSpec(Sweep(w, now).world.messages, MessageKey, NewMessage(NextId(Sweep(w, now).world.messages), caller, cid, text, now));
    FindSpec(Sweep(w, now).world.channels, ChannelKey, cid);
    ReplaceSpec(Sweep(w, now).world.channels, ChannelKey, cid,
      Find(Sweep(w, now).world.channels, cid).value.(
        messageIds := Find(Sweep(w, now).world.channels, cid).value.messageIds + [NextId(Sweep(w, now).world.messages)],
        messageCount := Find(Sweep(w, now).world.channels, cid).value.messageCount + 1));
  }

  /** The records a successful send writes, read off the handler. */
  lemma SendWrites(w: World, caller: int, cid: int, text: string, now: int)
    requires SendSpec(w, caller, cid, text, now).result.Ok?
    ensures TokenValid(w, caller) == Ok(true) && |text| <= MaxMessageLength
    ensures Sweep(w, now).ok && Find(Sweep(w, now).world.channels, cid).Some?
    ensures caller in Find(Sweep(w, now).world.channels, cid).value.memberIds
    ensures SendSpec(w, caller, cid, text, now).result == Ok(NextId(Sweep(w, now).world.messages))
    ensures SendSpec(w, caller, cid, text, now).world.messages
      == Insert(Sweep(w, now).world.messages, NewMessage(NextId(Sweep(w, now).world.messages), caller, cid, text, now))
    ensures SendSpec(w, caller, cid, text, now).world.channels
      == Replace(Sweep(w, now).world.channels, Find(Sweep(w, now).world.channels, cid).value.channelId,
           Find(Sweep(w, now).world.channels, cid).value.(
             messageIds := Find(Sweep(w, now).world.channels, cid).value.messageIds + [NextId(Sweep(w, now).world.messages)],
             messageCount := Find(Sweep(w, now).world.channels, cid).value.messageCount + 1))
    ensures SendSpec(w, caller, cid, text, now).world.(messages := Sweep(w, now).world.messages, channels := Sweep(w, now).world.channels)
      == Sweep(w, now).world
  {
  }

  /** The ways a send fails, in the handler's order, and the converse of
      SendSuccess: a logged-in member with a text of at most 1000
      characters, and a sweep that goes through, always succeeds. A failure
      leaves the world as the sweep (if it ran) left it, so it creates no
      message. */
  lemma SendErrors(w: World, caller: int, cid: int, text: string, now: int)
    requires WorldValid(w)
    ensures TokenValid(w, caller).Err? ==>
      SendSpec(w, caller, cid, text, now) == Outcome(w, Err(TokenValid(w, caller).error))
    ensures TokenValid(w, caller) == Ok(false) ==>
      SendSpec(w, caller, cid, text, now) == Outcome(w, Err(AccessError))
    ensures (TokenValid(w, caller) == Ok(true) && |text| > MaxMessageLength) ==>
      SendSpec(w, caller, cid, text, now) == Outcome(w, Err(InputError))
    ensures (TokenValid(w, caller) == Ok(true) && |text| <= MaxMessageLength && !Sweep(w, now).ok) ==>
      SendSpec(w, caller, cid, text, now) == Outcome(Sweep(w, now).world, Err(Fault))
    ensures (TokenValid(w, caller) == Ok(true) && |text| <= MaxMessageLength && Sweep(w, now).ok
        && Find(Sweep(w, now).world.channels, cid).Some?
        && caller !in Find(Sweep(w, now).world.channels, cid).value.memberIds) ==>
      SendSpec(w, caller, cid, text, now) == Outcome(Sweep(w, now).world, Err(AccessError))
    ensures (TokenValid(w, caller) == Ok(true) && |text| <= MaxMessageLength && Sweep(w, now).ok
        && Find(Sweep(w, now).world.channels, cid).Some?
        && caller in Find(Sweep(w, now).world.channels, cid).value.memberIds) ==>
      SendSpec(w, caller, cid, text, now).result.Ok?
    ensures SendSpec(w, caller, cid, text, now).result.Err? ==>
      SendSpec(w, caller, cid, text, now).world.messages == w.messages
  {
    SweepFrame(w, w.unsent, now);
  }

  /** A successful send keeps every channel's count equal to the length of
      its message list. */
  lemma SendKeepsCounts(w: World, caller: int, cid: int, text: string, now: int)
    requires WorldValid(w) && CountsAgree(w) && SendSpec(w, caller, cid, text, now).result.Ok?
    ensures CountsAgree(SendSpec(w, caller, cid, text, now).world)
  {
    SendSuccess(w, caller, cid, text, now);
    SweepCountsAgree(w, now);
    var w1 := Sweep(w, now).world;
    SweepFrame(w, w.unsent, now);
    var c := Find(w1.channels, cid).value;
    var id := NextId(w1.messages);
    var w2 := w1.(messages := Insert(w1.messages, NewMessage(id, caller, cid, text, now)));
    ReplaceSpec(w2.channels, ChannelKey, cid, c.(messageIds := c.messageIds + [id], messageCount := c.messageCount + 1));
  }

  /** message_sendlater: token, length, channel, membership; the new
      message carries the requested time and joins the queue, and the
      channel is not touched. A time in the past is not rejected. */
  function SendLaterSpec(w: World, caller: int, cid: int, text: string, timeSent: int, now: int): Outcome<int>
  {
    match TokenValid(w, caller)
    case Err(e) => Outcome(w, Err(e))
    case Ok(valid) =>
      if !valid then Outcome(w, Err(AccessError))
      else if |text| > MaxMessageLength then Outcome(w, Err(InputError))
      else
        match Find(w.channels, cid)
        case None => Outcome(w, Err(Fault))
        case Some(c) =>
          if caller !in c.memberIds then Outcome(w, Err(AccessError))
          else
            var id := NextId(w.messages);
            var w1 := w.(messages := Insert(w.messages, NewMessage(id, caller, cid, text, now)));
            var w2 := w1.(unsent := Enqueue(w1.unsent, id));
            Outcome(PutMessage(w2, NewMessage(id, caller, cid, text, now).(time := timeSent)), Ok(id))
  }

  method MessageSendLater(s: Persistence.Store, caller: int, cid: int, text: string, timeSent: int, now: int)
    returns (r: Result<int>)
    modifies s
    requires s.Valid()
    ensures s.Valid()
    ensures Outcome(s.Snapshot(), r) == SendLaterSpec(old(s.Snapshot()), caller, cid, text, timeSent, now)
  {
    var valid := CheckValidToken(s, caller);
    if valid.Err? {
      return Err(valid.error);
    }
    if !valid.value {
      return Err(AccessError);
    }
    if |text| > MaxMessageLength {
      return Err(InputError);
    }
    var c := s.GetChannel(cid);
    if c.None? {
      return Err(Fault);
    }
    if caller !in c.value.memberIds {
      return Err(AccessError);
    }
    var id := s.CreateMessage(caller, text, cid, now);
    var m := s.GetMessage(id);
    ghost var w1 := s.Snapshot();
    InsertSpec(old(s.Snapshot()).messages, MessageKey, NewMessage(id, caller, cid, text, now));
    var m' := m.value.(time := timeSent);
    var _ := s.CreateUnsentMessageId(id);
    var _ := s.UpdateMessage(id, m');
    r := Ok(id);
  }

  /** A successful send-later queues a new message with the requested time
      and leaves every channel as it was. */
  lemma SendLaterSuccess(w: World, caller: int, cid: int, text: string, timeSent: int, now: int)
    requires WorldValid(w) && SendLaterSpec(w, caller, cid, text, timeSent, now).result.Ok?
    ensures var o := SendLaterSpec(w, caller, cid, text, timeSent, now);
      var id := o.result.value;
      && WorldValid(o.world)
      && id !in w.messages.ids && id in o.world.unsent
      && Find(o.world.messages, id) == Some(NewMessage(id, caller, cid, text, timeSent))
      && o.world.channels == w.channels
      && Find(w.channels, cid).Some? && caller in Find(w.channels, cid).value.memberIds
  {
    var id := NextId(w.messages);
    var m := NewMessage(id, caller, cid, text, now);
    InsertSpec(w.messages, MessageKey, m);
    var w1 := w.(messages := Insert(w.messages, m));
    QueueSpec(w1.unsent, id);
    var w2 := w1.(unsent := Enqueue(w1.unsent, id));
    ReplaceSpec(w2.messages, MessageKey, id, m.(time := timeSent));
    FindSpec(w.channels, ChannelKey, cid);
  }

  /** A message sent for later reaches its channel at the first successful
      sweep at or after its time (provided its channel still exists). */
  lemma SendLaterDelivered(w: World, caller: int, cid: int, text: string, timeSent: int, now: int, later: int)
    requires WorldValid(w) && SendLaterSpec(w, caller, cid, text, timeSent, now).result.Ok?
    requires var w' := SendLaterSpec(w, caller, cid, text, timeSent, now).world;
      timeSent <= later && Sweep(w', later).ok
    ensures var o := SendLaterSpec(w, caller, cid, text, timeSent, now);
      var w2 := Sweep(o.world, later).world;
      && Find(w2.channels, cid).Some?
      && o.result.value in Find(w2.channels, cid).value.messageIds
      && o.result.value !in w2.unsent
  {
    SendLaterSuccess(w, caller, cid, text, timeSent, now);
    var o := SendLaterSpec(w, caller, cid, text, timeSent, now);
    SweepDelivers(o.world, later, o.result.value);
  }

  /* ---- reactions ---- */

  /** The caller already appears among the users of some reaction entry. */
  predicate AnyReacted(rs: seq<Reaction>, u: int)
  {
    exists i :: 0 <= i < |rs| && u in rs[i].uIds
  }

  /** Some entry carries react id `rid`. */
  predicate HasReactId(rs: seq<Reaction>, rid: int)
  {
    exists i :: 0 <= i < |rs| && rs[i].reactId == rid
  }

  /** Every entry with react id `rid` gets `u` appended to its users. */
  function AddReactor(rs: seq<Reaction>, rid: int, u: int): (r: seq<Reaction>)
    ensures |r| == |rs|
  {
    seq(|rs|, i requires 0 <= i < |rs| => if rs[i].reactId == rid then rs[i].(uIds := rs[i].uIds + [u]) else rs[i])
  }

  /** The reaction list after a react: `u` joins the entries with id
      `rid`, or, when there is none, a new entry is added whose react id
      is the user's own id. */
  function ReactWith(rs: seq<Reaction>, rid: int, u: int): seq<Reaction>
  {
    if HasReactId(rs, rid) then AddReactor(rs, rid, u) else rs + [Reaction(u, [u])]
  }

  /** Some entry with react id `rid` does not list `u`. */
  predicate MissingReactor(rs: seq<Reaction>, rid: int, u: int)
  {
    exists i :: 0 <= i < |rs| && rs[i].reactId == rid && u !in rs[i].uIds
  }

  /** Every entry with react id `rid` loses its first occurrence of `u`. */
  function DropReactor(rs: seq<Reaction>, rid: int, u: int): (r: seq<Reaction>)
    requires !MissingReactor(rs, rid, u)
    ensures |r| == |rs|
  {
    seq(|rs|, i requires 0 <= i < |rs| => if rs[i].reactId == rid then rs[i].(uIds := RemoveFirst(rs[i].uIds, u)) else rs[i])
  }

  /** message_react: no token check; the message and its channel must exist;
      a non-member, a react id other than 1 and a user who has reacted
      already are InputErrors. */
  function ReactSpec(w: World, caller: int, mid: int, rid: int): Outcome<()>
  {
    match Find(w.messages, mid)
    case None => Outcome(w, Err(Fault))
    case Some(m) =>
      match Find(w.channels, m.channelId)
      case None => Outcome(w, Err(Fault))
      case Some(c) =>
        if caller !in c.memberIds then Outcome(w, Err(InputError))
        else if rid != ThumbsUp then Outcome(w, Err(InputError))
        else if AnyReacted(m.reactions, caller) then Outcome(w, Err(InputError))
        else Outcome(PutMessage(w, m.(reactions := ReactWith(m.reactions, rid, caller))), Ok(()))
  }

  method MessageReact(s: Persistence.Store, caller: int, mid: int, rid: int) returns (r: Result<()>)
    modifies s
    requires s.Valid()
    ensures s.Valid()
    ensures Outcome(s.Snapshot(), r) == ReactSpec(old(s.Snapshot()), caller, mid, rid)
  {
    var m := s.GetMessage(mid);
    if m.None? {
      return Err(Fault);
    }
    var c := s.GetChannel(m.value.channelId);
    if c.None? {
      return Err(Fault);
    }
    if caller !in c.value.memberIds {
      return Err(InputError);
    }
    if rid != ThumbsUp {
      return Err(InputError);
    }
    var rs := m.value.reactions;
    var i := 0;
    while i < |rs|
      invariant 0 <= i <= |rs|
      invariant forall j :: 0 <= j < i ==> caller !in rs[j].uIds
    {
      if caller in rs[i].uIds {
        assert AnyReacted(rs, caller);
        return Err(InputError);
      }
      i := i + 1;
    }
    var exists_ := false;
    var out := rs;
    i := 0;
    while i < |rs|
      invariant 0 <= i <= |rs| && |out| == |rs|
      invariant forall j :: 0 <= j < |rs| ==> out[j] == (if j < i && rs[j].reactId == rid then rs[j].(uIds := rs[j].uIds + [caller]) else rs[j])
      invariant exists_ <==> exists j :: 0 <= j < i && rs[j].reactId == rid
    {
      if rs[i].reactId == rid {
        out := out[i := rs[i].(uIds := rs[i].uIds + [caller])];
        exists_ := true;
      }
      i := i + 1;
    }
    if !exists_ {
      assert out == rs;
      out := out + [Reaction(caller, [caller])];
    } else {
      assert out == AddReactor(rs, rid, caller);
    }
    var _ := s.UpdateMessage(mid, m.value.(reactions := out));
    r := Ok(());
  }

  /** message_unreact: the same checks as react, then an InputError when an
      entry with the react id lacks the caller; otherwise the caller leaves
      every entry with that id. When no entry has the id, nothing changes
      and the call succeeds. */
  function UnreactSpec(w: World, caller: int, mid: int, rid: int): Outcome<()>
  {
    match Find(w.messages, mid)
    case None => Outcome(w, Err(Fault))
    case Some(m) =>
      match Find(w.channels, m.channelId)
      case None => Outcome(w, Err(Fault))
      case Some(c) =>
        if caller !in c.memberIds then Outcome(w, Err(InputError))
        else if rid != ThumbsUp then Outcome(w, Err(InputError))
        else if MissingReactor(m.reactions, rid, caller) then Outcome(w, Err(InputError))
        else Outcome(PutMessage(w, m.(reactions := DropReactor(m.reactions, rid, caller))), Ok(()))
  }

  method MessageUnreact(s: Persistence.Store, caller: int, mid: int, rid: int) returns (r: Result<()>)
    modifies s
    requires s.Valid()
    ensures s.Valid()
    ensures Outcome(s.Snapshot(), r) == UnreactSpec(old(s.Snapshot()), caller, mid, rid)
  {
    var m := s.GetMessage(mid);
    if m.None? {
      return Err(Fault);
    }
    var c := s.GetChannel(m.value.channelId);
    if c.None? {
      return Err(Fault);
    }
    if caller !in c.value.memberIds {
      return Err(InputError);
    }
    if rid != ThumbsUp {
      return Err(InputError);
    }
    var rs := m.value.reactions;
    var i := 0;
    while i < |rs|
      invariant 0 <= i <= |rs|
      invariant forall j :: 0 <= j < i && rs[j].reactId == rid ==> caller in rs[j].uIds
    {
      if rs[i].reactId == rid && caller !in rs[i].uIds {
        return Err(InputError);
      }
      i := i + 1;
    }
    var out := rs;
    i := 0;
    while i < |rs|
      invariant 0 <= i <= |rs| && |out| == |rs|
      invariant forall j :: 0 <= j < |rs| ==> out[j] == (if j < i && rs[j].reactId == rid then rs[j].(uIds := RemoveFirst(rs[j].uIds, caller)) else rs[j])
    {
      if rs[i].reactId == rid {
        out := out[i := rs[i].(uIds := RemoveFirst(rs[i].uIds, caller))];
      }
      i := i + 1;
    }
    assert out == DropReactor(rs, rid, caller);
    var _ := s.UpdateMessage(mid, m.value.(reactions := out));
    r := Ok(());
  }

  /** After a successful react the caller has reacted, so a second react
      with the same arguments is an InputError that changes nothing. */
  lemma ReactTwice(w: World, caller: int, mid: int, rid: int)
    requires WorldValid(w) && ReactSpec(w, caller, mid, rid).result.Ok?
    ensures var w' := ReactSpec(w, caller, mid, rid).world;
      ReactSpec(w', caller, mid, rid) == Outcome(w', Err(InputError))
  {
    var m := Find(w.messages, mid).value;
    FindSpec(w.messages, MessageKey, mid);
    var rs' := ReactWith(m.reactions, rid, caller);
    ReplaceSpec(w.messages, MessageKey, mid, m.(reactions := rs'));
    if HasReactId(m.reactions, rid) {
      var k :| 0 <= k < |m.reactions| && m.reactions[k].reactId == rid;
      assert caller in rs'[k].uIds;
    } else {
      assert caller in rs'[|m.reactions|].uIds;
    }
  }

  /** Adding a user who is in no entry and then removing them again gives
      back the entries as they were. */
  lemma {:induction false} DropAfterAdd(rs: seq<Reaction>, rid: int, u: int)
    requires !AnyReacted(rs, u)
    ensures !MissingReactor(AddReactor(rs, rid, u), rid, u)
    ensures DropReactor(AddReactor(rs, rid, u), rid, u) == rs
  {
    var a := AddReactor(rs, rid, u);
    forall i | 0 <= i < |rs| ensures DropReactor(a, rid, u)[i] == rs[i] {
      if rs[i].reactId == rid {
        RemoveFirstAppended(rs[i].uIds, u);
      }
    }
  }

  /** When the message already has an entry with react id 1, unreact undoes
      react exactly: the world is back where it started. */
  lemma ReactUnreactRoundTrip(w: World, caller: int, mid: int)
    requires WorldValid(w) && ReactSpec(w, caller, mid, ThumbsUp).result.Ok?
    requires HasReactId(Find(w.messages, mid).value.reactions, ThumbsUp)
    ensures UnreactSpec(ReactSpec(w, caller, mid, ThumbsUp).world, caller, mid, ThumbsUp) == Outcome(w, Ok(()))
  {
    var m := Find(w.messages, mid).value;
    FindSpec(w.messages, MessageKey, mid);
    var m1 := m.(reactions := AddReactor(m.reactions, ThumbsUp, caller));
    ReplaceSpec(w.messages, MessageKey, mid, m1);
    DropAfterAdd(m.reactions, ThumbsUp, caller);
    assert m1.(reactions := DropReactor(m1.reactions, ThumbsUp, caller)) == m;
    ReplaceRestore(w.messages, MessageKey, mid, m1);
  }

  /** The first react on a message without a react-id-1 entry files the
      reaction under the caller's own id. For any caller other than user 1,
      unreact then finds no entry to change: it succeeds and leaves the
      caller reacted, so the caller can never react again. */
  lemma ReactIdIsUserId(w: World, caller: int, mid: int)
    requires WorldValid(w) && ReactSpec(w, caller, mid, ThumbsUp).result.Ok?
    requires !HasReactId(Find(w.messages, mid).value.reactions, ThumbsUp) && caller != ThumbsUp
    ensures var w1 := ReactSpec(w, caller, mid, ThumbsUp).world;
      && Find(w1.messages, mid).value.reactions == Find(w.messages, mid).value.reactions + [Reaction(caller, [caller])]
      && UnreactSpec(w1, caller, mid, ThumbsUp) == Outcome(w1, Ok(()))
      && ReactSpec(w1, caller, mid, ThumbsUp) == Outcome(w1, Err(InputError))
  {
    var m := Find(w.messages, mid).value;
    FindSpec(w.messages, MessageKey, mid);
    var rs' := m.reactions + [Reaction(caller, [caller])];
    var m1 := m.(reactions := rs');
    ReplaceSpec(w.messages, MessageKey, mid, m1);
    assert !MissingReactor(rs', ThumbsUp, caller);
    assert DropReactor(rs', ThumbsUp, caller) == rs';
    var w1 := PutMessage(w, m1);
    assert m1.(reactions := DropReactor(m1.reactions, ThumbsUp, caller)) == m1;
    ReplaceRestore(w1.messages, MessageKey, mid, m1);
    ReactTwice(w, caller, mid, ThumbsUp);
  }

  /* ---- pins ---- */

  /** message_pin (`pin` true) and message_unpin (`pin` false): the caller
      must be stored and a global owner (otherwise InputError), the message
      must exist and not be in the requested state already (InputError),
      its channel must exist, and a non-member gets AccessError. */
  function PinSpec(w: World, caller: int, mid: int, pin: bool): Outcome<()>
  {
    match Find(w.users, caller)
    case None => Outcome(w, Err(Fault))
    case Some(u) =>
      if u.permissionLevel != OwnerPermission then Outcome(w, Err(InputError))
      else
        match Find(w.messages, mid)
        case None => Outcome(w, Err(InputError))
        case Some(m) =>
          if m.pinned == pin then Outcome(w, Err(InputError))
          else
            match Find(w.channels, m.channelId)
            case None => Outcome(w, Err(Fault))
            case Some(c) =>
              if caller !in c.memberIds then Outcome(w, Err(AccessError))
              else Outcome(PutMessage(w, m.(pinned := pin)), Ok(()))
  }

  method MessagePin(s: Persistence.Store, caller: int, mid: int) returns (r: Result<()>)
    modifies s
    requires s.Valid()
    ensures s.Valid()
    ensures Outcome(s.Snapshot(), r) == PinSpec(old(s.Snapshot()), caller, mid, true)
  {
    var u := s.GetUser(caller);
    if u.None? {
      return Err(Fault);
    }
    if u.value.permissionLevel != OwnerPermission {
      return Err(InputError);
    }
    var m := s.GetMessage(mid);
    if m.None? {
      return Err(InputError);
    }
    if m.value.pinned {
      return Err(InputError);
    }
    var c := s.GetChannel(m.value.channelId);
    if c.None? {
      return Err(Fault);
    }
    if caller !in c.value.memberIds {
      return Err(AccessError);
    }
    var _ := s.UpdateMessage(mid, m.value.(pinned := true));
    r := Ok(());
  }

  method MessageUnpin(s: Persistence.Store, caller: int, mid: int) returns (r: Result<()>)
    modifies s
    requires s.Valid()
    ensures s.Valid()
    ensures Outcome(s.Snapshot(), r) == PinSpec(old(s.Snapshot()), caller, mid, false)
  {
    var u := s.GetUser(caller);
    if u.None? {
      return Err(Fault);
    }
    if u.value.permissionLevel != OwnerPermission {
      return Err(InputError);
    }
    var m := s.GetMessage(mid);
    if m.None? {
      return Err(InputError);
    }
    if !m.value.pinned {
      return Err(InputError);
    }
    var c := s.GetChannel(m.value.channelId);
    if c.None? {
      return Err(Fault);
    }
    if caller !in c.value.memberIds {
      return Err(AccessError);
    }
    var _ := s.UpdateMessage(mid, m.value.(pinned := false));
    r := Ok(());
  }

  /** Pinning succeeds exactly when the caller is a global owner and a
      member of the message's channel and the message is unpinned; then
      only that message's flag changes. */
  lemma PinSuccess(w: World, caller: int, mid: int, pin: bool)
    requires WorldValid(w)
    ensures PinSpec(w, caller, mid, pin).result.Ok? <==>
      && Find(w.users, caller).Some? && Find(w.users, caller).value.permissionLevel == OwnerPermission
      && Find(w.messages, mid).Some? && Find(w.messages, mid).value.pinned != pin
      && Find(w.channels, Find(w.messages, mid).value.channelId).Some?
      && caller in Find(w.channels, Find(w.messages, mid).value.channelId).value.memberIds
    ensures PinSpec(w, caller, mid, pin).result.Ok? ==>
      var w' := PinSpec(w, caller, mid, pin).world;
      && w'.channels == w.channels && w'.users == w.users && w'.messages.ids == w.messages.ids
      && Find(w'.messages, mid) == Some(Find(w.messages, mid).value.(pinned := pin))
      && (forall x :: x != mid ==> Find(w'.messages, x) == Find(w.messages, x))
  {
    if PinSpec(w, caller, mid, pin).result.Ok? {
      var m := Find(w.messages, mid).value;
      FindSpec(w.messages, MessageKey, mid);
      ReplaceSpec(w.messages, MessageKey, mid, m.(pinned := pin));
    }
  }

  /** Unpin undoes pin, pin undoes unpin, and repeating either is an
      InputError that changes nothing. */
  lemma PinRoundTrip(w: World, caller: int, mid: int, pin: bool)
    requires WorldValid(w) && PinSpec(w, caller, mid, pin).result.Ok?
    ensures var w' := PinSpec(w, caller, mid, pin).world;
      && PinSpec(w', caller, mid, !pin) == Outcome(w, Ok(()))
      && PinSpec(w', caller, mid, pin) == Outcome(w', Err(InputError))
  {
    var m := Find(w.messages, mid).value;
    FindSpec(w.messages, MessageKey, mid);
    ReplaceSpec(w.messages, MessageKey, mid, m.(pinned := pin));
    assert m.(pinned := pin).(pinned := !pin) == m;
    ReplaceRestore(w.messages, MessageKey, mid, m.(pinned := pin));
  }

  /* ---- remove and edit ---- */

  /** Who may remove or edit a message: a global owner, an owner of the
      message's channel, or its author. */
  predicate MayChange(u: User, c: Channel, m: Message)
  {
    u.permissionLevel == OwnerPermission || u.userId in c.ownerIds || u.userId == m.authorId
  }

  /** message_remove: caller, message and channel must exist; then the
      access check; then the message is deleted, the channel's count drops
      and its id leaves the channel's list. A message that is not in the
      list (one still queued) faults after it has been deleted. */
  function RemoveMessageSpec(w: World, caller: int, mid: int): Outcome<()>
  {
    match Find(w.users, caller)
    case None => Outcome(w, Err(Fault))
    case Some(u) =>
      match Find(w.messages, mid)
      case None => Outcome(w, Err(Fault))
      case Some(m) =>
        match Find(w.channels, m.channelId)
        case None => Outcome(w, Err(Fault))
        case Some(c) =>
          if !MayChange(u, c, m) then Outcome(w, Err(AccessError))
          else
            var w1 := w.(messages := Remove(w.messages, mid));
            if mid !in c.messageIds then Outcome(w1, Err(Fault))
            else
              Outcome(PutChannel(w1, c.(messageCount := c.messageCount - 1, messageIds := RemoveFirst(c.messageIds, mid))), Ok(()))
  }

  method MessageRemove(s: Persistence.Store, caller: int, mid: int) returns (r: Result<()>)
    modifies s
    requires s.Valid()
    ensures s.Valid()
    ensures Outcome(s.Snapshot(), r) == RemoveMessageSpec(old(s.Snapshot()), caller, mid)
  {
    var u := s.GetUser(caller);
    if u.None? {
      return Err(Fault);
    }
    var globalOwner := u.value.permissionLevel == OwnerPermission;
    var m := s.GetMessage(mid);
    if m.None? {
      return Err(Fault);
    }
    var c := s.GetChannel(m.value.channelId);
    if c.None? {
      return Err(Fault);
    }
    var channelOwner := caller in c.value.ownerIds;
    var author := u.value.userId == m.value.authorId;
    if !(globalOwner || channelOwner || author) {
      return Err(AccessError);
    }
    var found := s.DeleteMessage(mid);
    if !found {
      assert false;
      return Err(InputError);
    }
    if mid !in c.value.messageIds {
      return Err(Fault);
    }
    var c' := c.value.(messageCount := c.value.messageCount - 1, messageIds := RemoveFirst(c.value.messageIds, mid));
    var _ := s.UpdateChannel(c'.channelId, c');
    r := Ok(());
  }

  /** A successful remove deletes the message, takes one occurrence of its
      id off its channel's list and lowers the count by one, and keeps
      every channel's count equal to its list's length. */
  lemma RemoveMessageSuccess(w: World, caller: int, mid: int)
    requires WorldValid(w) && RemoveMessageSpec(w, caller, mid).result.Ok?
    ensures var w' := RemoveMessageSpec(w, caller, mid).world;
      var cid := Find(w.messages, mid).value.channelId;
      var c := Find(w.channels, cid).value;
      && WorldValid(w')
      && MayChange(Find(w.users, caller).value, c, Find(w.messages, mid).value)
      && Find(w'.messages, mid).None?
      && Find(w'.channels, cid) == Some(c.(messageCount := c.messageCount - 1, messageIds := RemoveFirst(c.messageIds, mid)))
      && (CountsAgree(w) ==> CountsAgree(w'))
  {
    RemoveMessageWrites(w, caller, mid);
    FindSpec(w.channels, ChannelKey, Find(w.messages, mid).value.channelId);
    RemoveSpec(w.messages, MessageKey, mid);
    ReplaceSpec(w.channels, ChannelKey, Find(w.messages, mid).value.channelId,
      Find(w.channels, Find(w.messages, mid).value.channelId).value.(
        messageCount := Find(w.channels, Find(w.messages, mid).value.channelId).value.messageCount - 1,
        messageIds := RemoveFirst(Find(w.channels, Find(w.messages, mid).value.channelId).value.messageIds, mid)));
  }

  /** The records a successful removal writes, read off the handler. */
  lemma RemoveMessageWrites(w: World, caller: int, mid: int)
    requires RemoveMessageSpec(w, caller, mid).result.Ok?
    ensures Find(w.users, caller).Some? && Find(w.messages, mid).Some?
    ensures Find(w.channels, Find(w.messages, mid).value.channelId).Some?
    ensures MayChange(Find(w.users, caller).value, Find(w.channels, Find(w.messages, mid).value.channelId).value, Find(w.messages, mid).value)
    ensures mid in Find(w.channels, Find(w.messages, mid).value.channelId).value.messageIds
    ensures RemoveMessageSpec(w, caller, mid).world == w.(
      messages := Remove(w.messages, mid),
      channels := Replace(w.channels, Find(w.channels, Find(w.messages, mid).value.channelId).value.channelId,
        Find(w.channels, Find(w.messages, mid).value.channelId).value.(
          messageCount := Find(w.channels, Find(w.messages, mid).value.channelId).value.messageCount - 1,
          messageIds := RemoveFirst(Find(w.channels, Find(w.messages, mid).value.channelId).value.messageIds, mid))))
  {
  }

  /** Removing a message that is still queued (sent for later, or a standup
      buffer) faults after the message is gone, and its id stays in the
      queue; from then on every sweep fails. */
  lemma RemoveQueuedMessage(w: World, caller: int, mid: int, later: int)
    requires WorldValid(w) && mid in w.unsent
    requires Find(w.users, caller).Some? && Find(w.messages, mid).Some?
    requires var m := Find(w.messages, mid).value;
      && Find(w.channels, m.channelId).Some?
      && mid !in Find(w.channels, m.channelId).value.messageIds
      && MayChange(Find(w.users, caller).value, Find(w.channels, m.channelId).value, m)
    ensures var o := RemoveMessageSpec(w, caller, mid);
      && o.result == Err(Fault)
      && Find(o.world.messages, mid).None? && mid in o.world.unsent
      && !Sweep(o.world, later).ok
  {
    var w1 := w.(messages := Remove(w.messages, mid));
    RemoveSpec(w.messages, MessageKey, mid);
    SweepDangling(w1, w1.unsent, later, mid);
  }

  /** message_edit: the same existence and access checks as remove; then
      the content is replaced and the message marked edited. An empty text
      is stored as it is: nothing is deleted. */
  function EditSpec(w: World, caller: int, mid: int, text: string): Outcome<()>
  {
    match Find(w.users, caller)
    case None => Outcome(w, Err(Fault))
    case Some(u) =>
      match Find(w.messages, mid)
      case None => Outcome(w, Err(Fault))
      case Some(m) =>
        match Find(w.channels, m.channelId)
        case None => Outcome(w, Err(Fault))
        case Some(c) =>
          if !MayChange(u, c, m) then Outcome(w, Err(AccessError))
          else Outcome(PutMessage(w, m.(content := text, edited := true)), Ok(()))
  }

  method MessageEdit(s: Persistence.Store, caller: int, mid: int, text: string) returns (r: Result<()>)
    modifies s
    requires s.Valid()
    ensures s.Valid()
    ensures Outcome(s.Snapshot(), r) == EditSpec(old(s.Snapshot()), caller, mid, text)
  {
    var u := s.GetUser(caller);
    if u.None? {
      return Err(Fault);
    }
    var globalOwner := u.value.permissionLevel == OwnerPermission;
    var m := s.GetMessage(mid);
    if m.None? {
      return Err(Fault);
    }
    var c := s.GetChannel(m.value.channelId);
    if c.None? {
      return Err(Fault);
    }
    var channelOwner := caller in c.value.ownerIds;
    var author := u.value.userId == m.value.authorId;
    if !(globalOwner || channelOwner || author) {
      return Err(AccessError);
    }
    var _ := s.UpdateMessage(mid, m.value.(content := text, edited := true));
    r := Ok(());
  }

  /** A successful edit keeps the message (even for an empty text), gives it
      the new content and the edited flag, and changes nothing else; edit
      and remove admit exactly the same callers. */
  lemma EditSuccess(w: World, caller: int, mid: int, text: string)
    requires WorldValid(w)
    ensures (EditSpec(w, caller, mid, text).result == Err(AccessError)) <==>
            (RemoveMessageSpec(w, caller, mid).result == Err(AccessError))
    ensures EditSpec(w, caller, mid, text).result.Ok? ==>
      var w' := EditSpec(w, caller, mid, text).world;
      var m := Find(w.messages, mid).value;
      && Find(w'.messages, mid) == Some(m.(content := text, edited := true))
      && Find(w'.messages, mid).value.content == text
      && w'.channels == w.channels && w'.messages.ids == w.messages.ids && w'.unsent == w.unsent
  {
    if EditSpec(w, caller, mid, text).result.Ok? {
      var m := Find(w.messages, mid).value;
      FindSpec(w.messages, MessageKey, mid);
      ReplaceSpec(w.messages, MessageKey, mid, m.(content := text, edited := true));
    }
  }
}
