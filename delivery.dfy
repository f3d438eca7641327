/** Deferred delivery (backend/src/message.py, check_unsent_messages,
    send_unsent_message, mark_standups_as_completed).

    Messages created by sendlater and standup buffers wait in the unsent
    queue with a time in the future. A sweep walks a copy of the queue, in
    queue order, and delivers each message whose time has come: it is
    appended to its channel's message list, the channel's count goes up by
    one and the id leaves the queue. Before each delivery every standup
    whose finish time has passed is closed.

    A step that indexes a missing record (a queued id whose message is gone,
    a channel that no longer exists) raises in the source; here the step
    reports `ok == false` and the world is what was written before it. */
module Delivery {
  import opened Wrappers
  import opened Seqs
  import opened Documents
  import opened Records
  import opened Persistence

  datatype Step = Step(world: World, ok: bool)

  /** A channel with its standup fields cleared: what closing a standup
      leaves alone. */
  function StandupFree(c: Channel): Channel
  {
    c.(standupInProgress := false, standupId := None)
  }

  /** The loop body of mark_standups_as_completed for one channel: if its
      standup is running and its finish time is not after `now`, the
      standup is marked finished and the channel's standup fields are
      cleared. */
  function CloseStandup(w: World, cid: int, now: int): Step
  {
    match Find(w.channels, cid)
    case None => Step(w, false)
    case Some(c) =>
      if !c.standupInProgress then Step(w, true)
      else
        match c.standupId
        case None => Step(w, false)
        case Some(sid) =>
          match Find(w.standups, sid)
          case None => Step(w, false)
          case Some(st) =>
            if st.timeFinished <= now then
              var w1 := PutStandup(w, st.(inProgress := false));
              Step(PutChannel(w1, c.(standupId := None, standupInProgress := false)), true)
            else Step(w, true)
  }

  function MarkFrom(w: World, cids: seq<int>, now: int): Step
    decreases |cids|
  {
    if cids == [] then Step(w, true)
    else
      var s1 := CloseStandup(w, cids[0], now);
      if !s1.ok then s1 else MarkFrom(s1.world, cids[1..], now)
  }

  /** mark_standups_as_completed: the loop over all channel ids. */
  function MarkStandups(w: World, now: int): Step
  {
    MarkFrom(w, w.channels.ids, now)
  }

  /** send_unsent_message: close finished standups, then append the message
      to its channel, count it, and take it off the queue. */
  function SendUnsent(w: World, id: int, now: int): Step
  {
    var m := MarkStandups(w, now);
    if !m.ok then m
    else
      var w1 := m.world;
      match Find(w1.messages, id)
      case None => Step(w1, false)
      case Some(msg) =>
        match Find(w1.channels, msg.channelId)
        case None => Step(w1, false)
        case Some(c) =>
          var c' := c.(messageIds := c.messageIds + [id], messageCount := c.messageCount + 1);
          Step(PutChannel(w1.(unsent := Dequeue(w1.unsent, id)), c'), true)
  }

  function SweepFrom(w: World, pending: seq<int>, now: int): Step
    decreases |pending|
  {
    if pending == [] then Step(w, true)
    else
      match Find(w.messages, pending[0])
      case None => Step(w, false)
      case Some(m) =>
        if m.time <= now then
          var s1 := SendUnsent(w, pending[0], now);
          if !s1.ok then s1 else SweepFrom(s1.world, pending[1..], now)
        else SweepFrom(w, pending[1..], now)
  }

  /** check_unsent_messages: the walk over a copy of the queue. */
  function Sweep(w: World, now: int): Step
  {
    SweepFrom(w, w.unsent, now)
  }

  /* ---- the source's loops ---- */

  /** One iteration of mark_standups_as_completed. */
  method CloseDueStandup(s: Persistence.Store, cid: int, now: int) returns (ok: bool)
    modifies s
    requires s.Valid()
    ensures s.Valid()
    ensures Step(s.Snapshot(), ok) == CloseStandup(old(s.Snapshot()), cid, now)
  {
    var c := s.GetChannel(cid);
    if c.None? {
      return false;
    }
    if !c.value.standupInProgress {
      return true;
    }
    if c.value.standupId.None? {
      return false;
    }
    var st := s.GetStandup(c.value.standupId.value);
    if st.None? {
      return false;
    }
    if st.value.timeFinished <= now {
      var _ := s.UpdateStandup(st.value.standupId, st.value.(inProgress := false));
      var _ := s.UpdateChannel(cid, c.value.(standupId := None, standupInProgress := false));
    }
    ok := true;
  }

  method MarkStandupsAsCompleted(s: Persistence.Store, now: int) returns (ok: bool)
    modifies s
    requires s.Valid()
    ensures s.Valid()
    ensures Step(s.Snapshot(), ok) == MarkStandups(old(s.Snapshot()), now)
  {
    var cids := s.channels.ids;
    ghost var w0 := s.Snapshot();
    var i := 0;
    while i < |cids|
      invariant 0 <= i <= |cids|
      invariant s.Valid()
      invariant MarkFrom(w0, cids, now) == MarkFrom(s.Snapshot(), cids[i..], now)
    {
      assert cids[i..][1..] == cids[i + 1..];
      var stepOk := CloseDueStandup(s, cids[i], now);
      if !stepOk {
        return false;
      }
      i := i + 1;
    }
    ok := true;
  }

  method SendUnsentMessage(s: Persistence.Store, id: int, now: int) returns (ok: bool)
    modifies s
    requires s.Valid()
    ensures s.Valid()
    ensures Step(s.Snapshot(), ok) == SendUnsent(old(s.Snapshot()), id, now)
  {
    var marked := MarkStandupsAsCompleted(s, now);
    if !marked {
      return false;
    }
    var m := s.GetMessage(id);
    if m.None? {
      return false;
    }
    var c := s.GetChannel(m.value.channelId);
    if c.None? {
      return false;
    }
    var c' := c.value.(messageIds := c.value.messageIds + [id], messageCount := c.value.messageCount + 1);
    var _ := s.DeleteUnsentMessageId(id);
    var _ := s.UpdateChannel(m.value.channelId, c');
    ok := true;
  }

  method CheckUnsentMessages(s: Persistence.Store, now: int) returns (ok: bool)
    modifies s
    requires s.Valid()
    ensures s.Valid()
    ensures Step(s.Snapshot(), ok) == Sweep(old(s.Snapshot()), now)
  {
    var pending := s.unsent;
    ghost var w0 := s.Snapshot();
    var i := 0;
    while i < |pending|
      invariant 0 <= i <= |pending|
      invariant s.Valid()
      invariant SweepFrom(w0, pending, now) == SweepFrom(s.Snapshot(), pending[i..], now)
    {
      assert pending[i..][1..] == pending[i + 1..];
      var m := s.GetMessage(pending[i]);
      if m.None? {
        return false;
      }
      if m.value.time <= now {
        var sent := SendUnsentMessage(s, pending[i], now);
        if !sent {
          return false;
        }
      }
      i := i + 1;
    }
    ok := true;
  }

  /* ---- what the delivery steps leave alone ---- */

  /** Closing standups touches only standup flags: the channel and standup
      ids stay, every channel keeps everything but its standup fields, and
      every standup keeps its finish time. */
  ghost predicate OnlyStandupsChange(w: World, w': World)
  {
    && w'.users == w.users && w'.messages == w.messages && w'.unsent == w.unsent && w'.hangmen == w.hangmen
    && w'.channels.ids == w.channels.ids && w'.standups.ids == w.standups.ids
    && (forall x :: Find(w'.channels, x).Some? == Find(w.channels, x).Some?)
    && (forall x :: Find(w'.channels, x).Some? ==>
          StandupFree(Find(w'.channels, x).value) == StandupFree(Find(w.channels, x).value))
    && (forall x :: Find(w'.standups, x).Some? == Find(w.standups, x).Some?)
    && (forall x :: Find(w'.standups, x).Some? ==>
          Find(w'.standups, x).value.timeFinished == Find(w.standups, x).value.timeFinished)
  }

  lemma CloseStandupFrame(w: World, cid: int, now: int)
    requires WorldValid(w)
    ensures WorldValid(CloseStandup(w, cid, now).world)
    ensures OnlyStandupsChange(w, CloseStandup(w, cid, now).world)
    ensures forall y :: y != cid ==> Find(CloseStandup(w, cid, now).world.channels, y) == Find(w.channels, y)
  {
    var c := Find(w.channels, cid);
    if c.Some? && c.value.standupInProgress && c.value.standupId.Some? {
      var st := Find(w.standups, c.value.standupId.value);
      if st.Some? && st.value.timeFinished <= now {
        ClosingFrame(w, cid, c.value, st.value, now);
      }
    }
  }

  /** CloseStandupFrame when the standup is closed. */
  lemma ClosingFrame(w: World, cid: int, c: Channel, st: Standup, now: int)
    requires WorldValid(w) && Find(w.channels, cid) == Some(c)
    requires c.standupInProgress && c.standupId.Some?
    requires Find(w.standups, c.standupId.value) == Some(st) && st.timeFinished <= now
    ensures WorldValid(CloseStandup(w, cid, now).world)
    ensures OnlyStandupsChange(w, CloseStandup(w, cid, now).world)
    ensures forall y :: y != cid ==> Find(CloseStandup(w, cid, now).world.channels, y) == Find(w.channels, y)
  {
    FindSpec(w.channels, ChannelKey, cid);
    FindSpec(w.standups, StandupKey, c.standupId.value);
    ReplaceSpec(w.standups, StandupKey, c.standupId.value, st.(inProgress := false));
    assert WorldValid(PutStandup(w, st.(inProgress := false)));
    ReplaceSpec(w.channels, ChannelKey, cid, c.(standupId := None, standupInProgress := false));
  }

  lemma {:induction false} MarkFromFrame(w: World, cids: seq<int>, now: int)
    requires WorldValid(w)
    ensures WorldValid(MarkFrom(w, cids, now).world)
    ensures OnlyStandupsChange(w, MarkFrom(w, cids, now).world)
    decreases |cids|
  {
    if cids != [] {
      CloseStandupFrame(w, cids[0], now);
      var s1 := CloseStandup(w, cids[0], now);
      if s1.ok {
        MarkFromFrame(s1.world, cids[1..], now);
      }
    }
  }

  /** A delivery changes neither users, messages nor games, and keeps the
      channel and standup ids. */
  ghost predicate DeliveryFrame(w: World, w': World)
  {
    && WorldValid(w')
    && w'.users == w.users && w'.messages == w.messages && w'.hangmen == w.hangmen
    && w'.channels.ids == w.channels.ids && w'.standups.ids == w.standups.ids
  }

  lemma SendUnsentFrame(w: World, id: int, now: int)
    requires WorldValid(w)
    ensures DeliveryFrame(w, SendUnsent(w, id, now).world)
  {
    MarkFromFrame(w, w.channels.ids, now);
    var m := MarkStandups(w, now);
    if m.ok {
      var w1 := m.world;
      var msg := Find(w1.messages, id);
      if msg.Some? {
        var c := Find(w1.channels, msg.value.channelId);
        if c.Some? {
          FindSpec(w1.channels, ChannelKey, msg.value.channelId);
          QueueSpec(w1.unsent, id);
          var w2 := w1.(unsent := Dequeue(w1.unsent, id));
          var c' := c.value.(messageIds := c.value.messageIds + [id], messageCount := c.value.messageCount + 1);
          ReplaceSpec(w2.channels, ChannelKey, msg.value.channelId, c');
        }
      }
    }
  }

  lemma {:induction false} SweepFrame(w: World, p: seq<int>, now: int)
    requires WorldValid(w)
    ensures DeliveryFrame(w, SweepFrom(w, p, now).world)
    decreases |p|
  {
    if p != [] && Find(w.messages, p[0]).Some? {
      if Find(w.messages, p[0]).value.time <= now {
        SendUnsentFrame(w, p[0], now);
        var s1 := SendUnsent(w, p[0], now);
        if s1.ok {
          SweepFrame(s1.world, p[1..], now);
        }
      } else {
        SweepFrame(w, p[1..], now);
      }
    }
  }

  /* ---- what a sweep delivers ---- */

  /** A queued id is due when its message exists and its time has come. */
  predicate IsDue(msgs: Doc<Message>, id: int, now: int)
  {
    Find(msgs, id).Some? && Find(msgs, id).value.time <= now
  }

  /** The ids of `p`, in order, that are not due. */
  function NotDue(msgs: Doc<Message>, p: seq<int>, now: int): seq<int>
  {
    if p == [] then [] else (if IsDue(msgs, p[0], now) then [] else [p[0]]) + NotDue(msgs, p[1..], now)
  }

  /** The ids of `p`, in order, that are due and belong to channel `cid`. */
  function DueIn(msgs: Doc<Message>, p: seq<int>, cid: int, now: int): seq<int>
  {
    if p == [] then []
    else
      (if IsDue(msgs, p[0], now) && Find(msgs, p[0]).value.channelId == cid then [p[0]] else [])
      + DueIn(msgs, p[1..], cid, now)
  }

  /** A channel with its standup fields and its message list cleared: what
      a sweep leaves alone. */
  function Core(c: Channel): Channel
  {
    StandupFree(c).(messageIds := [], messageCount := 0)
  }

  /** Channel `after` is channel `before` with `added` appended to its
      message list and counted, and otherwise differs at most in its
      standup fields. */
  predicate Appended(before: Option<Channel>, after: Option<Channel>, added: seq<int>)
  {
    && (after.Some? <==> before.Some?)
    && (before.Some? ==>
          && after.value.messageIds == before.value.messageIds + added
          && after.value.messageCount == before.value.messageCount + |added|
          && Core(after.value) == Core(before.value))
  }

  lemma AppendedTrans(a: Option<Channel>, b: Option<Channel>, c: Option<Channel>, d1: seq<int>, d2: seq<int>)
    requires Appended(a, b, d1) && Appended(b, c, d2)
    ensures Appended(a, c, d1 + d2)
  {
    if a.Some? {
      assert (a.value.messageIds + d1) + d2 == a.value.messageIds + (d1 + d2);
    }
  }

  /** Delivering one message appends it to its own channel and to no other. */
  lemma SendUnsentChannel(w: World, id: int, now: int, cid: int)
    requires WorldValid(w) && SendUnsent(w, id, now).ok
    ensures Find(w.messages, id).Some?
    ensures Appended(Find(w.channels, cid), Find(SendUnsent(w, id, now).world.channels, cid),
                     if Find(w.messages, id).value.channelId == cid then [id] else [])
  {
    MarkFromFrame(w, w.channels.ids, now);
    var w1 := MarkStandups(w, now).world;
    var msg := Find(w1.messages, id).value;
    var c := Find(w1.channels, msg.channelId).value;
    FindSpec(w1.channels, ChannelKey, msg.channelId);
    var w2 := w1.(unsent := Dequeue(w1.unsent, id));
    var c' := c.(messageIds := c.messageIds + [id], messageCount := c.messageCount + 1);
    ReplaceSpec(w2.channels, ChannelKey, msg.channelId, c');
  }

  /** Delivering one message takes it off the queue. */
  lemma SendUnsentQueue(w: World, id: int, now: int)
    requires WorldValid(w) && SendUnsent(w, id, now).ok
    ensures SendUnsent(w, id, now).world.unsent == Dequeue(w.unsent, id)
  {
    MarkFromFrame(w, w.channels.ids, now);
  }

  /** Over a whole walk, each channel receives exactly its due ids, in
      queue order, and its count grows by their number; nothing else of
      the channel changes except its standup fields. */
  lemma {:induction false} SweepChannel(w: World, p: seq<int>, now: int, cid: int)
    requires WorldValid(w) && SweepFrom(w, p, now).ok
    ensures Appended(Find(w.channels, cid), Find(SweepFrom(w, p, now).world.channels, cid),
                     DueIn(w.messages, p, cid, now))
    decreases |p|
  {
    if p != [] {
      var m := Find(w.messages, p[0]).value;
      var rest := DueIn(w.messages, p[1..], cid, now);
      if m.time <= now {
        var s1 := SendUnsent(w, p[0], now);
        SendUnsentChannel(w, p[0], now, cid);
        SendUnsentFrame(w, p[0], now);
        SweepChannel(s1.world, p[1..], now, cid);
        var extra := if m.channelId == cid then [p[0]] else [];
        assert DueIn(w.messages, p, cid, now) == extra + rest;
        AppendedTrans(Find(w.channels, cid), Find(s1.world.channels, cid),
                      Find(SweepFrom(w, p, now).world.channels, cid), extra, rest);
      } else {
        SweepChannel(w, p[1..], now, cid);
        assert DueIn(w.messages, p, cid, now) == [] + rest;
      }
    }
  }

  /** How one step of the walk unfolds when the walk succeeds. */
  lemma SweepUnfold(w: World, p: seq<int>, now: int)
    requires p != [] && SweepFrom(w, p, now).ok
    ensures Find(w.messages, p[0]).Some?
    ensures IsDue(w.messages, p[0], now) ==>
      SendUnsent(w, p[0], now).ok && SweepFrom(w, p, now) == SweepFrom(SendUnsent(w, p[0], now).world, p[1..], now)
    ensures !IsDue(w.messages, p[0], now) ==> SweepFrom(w, p, now) == SweepFrom(w, p[1..], now)
  {
  }

  /** One delivered step of the queue walk: the head leaves the queue. */
  lemma SendUnsentAfterKept(w: World, kept: seq<int>, p: seq<int>, now: int)
    requires WorldValid(w) && w.unsent == kept + p && p != [] && SendUnsent(w, p[0], now).ok
    ensures WorldValid(SendUnsent(w, p[0], now).world)
    ensures SendUnsent(w, p[0], now).world.unsent == kept + p[1..]
    ensures SendUnsent(w, p[0], now).world.messages == w.messages
  {
    SendUnsentQueue(w, p[0], now);
    SendUnsentFrame(w, p[0], now);
    RemoveFirstAfterPrefix(kept, p);
  }

  /** A delivered head of the walk: the walk goes on from the world after
      the delivery, whose queue is the kept ids and the rest of the walk. */
  lemma SweepQueueDue(w: World, kept: seq<int>, p: seq<int>, now: int)
    requires WorldValid(w) && w.unsent == kept + p && p != [] && SweepFrom(w, p, now).ok
    requires IsDue(w.messages, p[0], now)
    ensures var w1 := SendUnsent(w, p[0], now).world;
      && WorldValid(w1) && w1.unsent == kept + p[1..] && SweepFrom(w1, p[1..], now).ok
      && SweepFrom(w, p, now).world == SweepFrom(w1, p[1..], now).world
      && NotDue(w.messages, p, now) == NotDue(w1.messages, p[1..], now)
  {
    SweepUnfold(w, p, now);
    SendUnsentAfterKept(w, kept, p, now);
  }

  /** Over a walk of the queue's tail `p`, the due ids leave the queue and
      the others stay, in their order. */
  lemma {:induction false} SweepQueue(w: World, kept: seq<int>, p: seq<int>, now: int)
    requires WorldValid(w) && w.unsent == kept + p && SweepFrom(w, p, now).ok
    ensures SweepFrom(w, p, now).world.unsent == kept + NotDue(w.messages, p, now)
    decreases |p|
  {
    if p == [] {
      assert kept + p == kept;
    } else if IsDue(w.messages, p[0], now) {
      SweepQueueDue(w, kept, p, now);
      SweepQueue(SendUnsent(w, p[0], now).world, kept, p[1..], now);
    } else {
      SweepQueueKept(w, kept, p, now);
      SweepQueue(w, kept + [p[0]], p[1..], now);
      assert (kept + [p[0]]) + NotDue(w.messages, p[1..], now) == kept + ([p[0]] + NotDue(w.messages, p[1..], now));
    }
  }

  /** A head of the walk that is not due: it moves to the kept ids. */
  lemma SweepQueueKept(w: World, kept: seq<int>, p: seq<int>, now: int)
    requires w.unsent == kept + p && p != [] && SweepFrom(w, p, now).ok
    requires !IsDue(w.messages, p[0], now)
    ensures w.unsent == (kept + [p[0]]) + p[1..] && SweepFrom(w, p[1..], now).ok
    ensures SweepFrom(w, p, now).world == SweepFrom(w, p[1..], now).world
    ensures NotDue(w.messages, p, now) == [p[0]] + NotDue(w.messages, p[1..], now)
  {
    SweepUnfold(w, p, now);
    assert kept + p == (kept + [p[0]]) + p[1..];
  }

  /** A queued id whose message no longer exists makes the walk fail when
      it reaches that id (if nothing failed before). */
  lemma {:induction false} SweepDangling(w: World, p: seq<int>, now: int, x: int)
    requires WorldValid(w) && x in p && Find(w.messages, x).None?
    ensures !SweepFrom(w, p, now).ok
    decreases |p|
  {
    if p[0] != x && Find(w.messages, p[0]).Some? {
      assert x in p[1..];
      if Find(w.messages, p[0]).value.time <= now {
        var s1 := SendUnsent(w, p[0], now);
        SendUnsentFrame(w, p[0], now);
        if s1.ok {
          SweepDangling(s1.world, p[1..], now, x);
        }
      } else {
        SweepDangling(w, p[1..], now, x);
      }
    }
  }

  /** A walk over ids that all exist and are all in the future changes
      nothing. */
  lemma {:induction false} SweepIdle(w: World, p: seq<int>, now: int)
    requires forall i :: 0 <= i < |p| ==> Find(w.messages, p[i]).Some? && !IsDue(w.messages, p[i], now)
    ensures SweepFrom(w, p, now) == Step(w, true)
    decreases |p|
  {
    if p != [] {
      SweepIdle(w, p[1..], now);
    }
  }

  lemma {:induction false} NotDueFuture(msgs: Doc<Message>, p: seq<int>, now: int)
    requires forall i :: 0 <= i < |p| ==> Find(msgs, p[i]).Some?
    ensures forall i :: 0 <= i < |NotDue(msgs, p, now)| ==>
      Find(msgs, NotDue(msgs, p, now)[i]).Some? && !IsDue(msgs, NotDue(msgs, p, now)[i], now)
    ensures forall x :: x in NotDue(msgs, p, now) <==> x in p && !IsDue(msgs, x, now)
    decreases |p|
  {
    if p != [] {
      NotDueFuture(msgs, p[1..], now);
      var head := if IsDue(msgs, p[0], now) then [] else [p[0]];
      assert NotDue(msgs, p, now) == head + NotDue(msgs, p[1..], now);
      assert p == [p[0]] + p[1..];
    }
  }

  /** What a complete sweep does: the due messages leave the queue, the
      rest stay in order, and users, messages, games and the channel ids
      are untouched. */
  lemma SweepSpec(w: World, now: int)
    requires WorldValid(w) && Sweep(w, now).ok
    ensures var w' := Sweep(w, now).world;
      && WorldValid(w')
      && w'.unsent == NotDue(w.messages, w.unsent, now)
      && (forall x :: x in w'.unsent <==> x in w.unsent && !IsDue(w.messages, x, now))
      && w'.users == w.users && w'.messages == w.messages && w'.hangmen == w.hangmen
      && w'.channels.ids == w.channels.ids
  {
    SweepFrame(w, w.unsent, now);
    SweepQueue(w, [], w.unsent, now);
    assert [] + w.unsent == w.unsent;
    forall i | 0 <= i < |w.unsent| ensures Find(w.messages, w.unsent[i]).Some? {
      if Find(w.messages, w.unsent[i]).None? {
        SweepDangling(w, w.unsent, now, w.unsent[i]);
      }
    }
    NotDueFuture(w.messages, w.unsent, now);
  }

  /** Sweeping twice at the same time is sweeping once: after a sweep,
      nothing left in the queue is due. */
  lemma SweepIdempotent(w: World, now: int)
    requires WorldValid(w) && Sweep(w, now).ok
    ensures Sweep(Sweep(w, now).world, now) == Step(Sweep(w, now).world, true)
  {
    var w' := Sweep(w, now).world;
    SweepSpec(w, now);
    forall i | 0 <= i < |w.unsent| ensures Find(w.messages, w.unsent[i]).Some? {
      if Find(w.messages, w.unsent[i]).None? {
        SweepDangling(w, w.unsent, now, w.unsent[i]);
      }
    }
    NotDueFuture(w.messages, w.unsent, now);
    SweepIdle(w', w'.unsent, now);
  }

  /** Each delivery keeps message_count equal to the length of the
      channel's message list. */
  lemma SweepKeepsCounts(w: World, now: int, cid: int)
    requires WorldValid(w) && Sweep(w, now).ok
    requires Find(w.channels, cid).Some? && Find(w.channels, cid).value.messageCount == |Find(w.channels, cid).value.messageIds|
    ensures Find(Sweep(w, now).world.channels, cid).Some?
    ensures Find(Sweep(w, now).world.channels, cid).value.messageCount == |Find(Sweep(w, now).world.channels, cid).value.messageIds|
  {
    SweepChannel(w, w.unsent, now, cid);
  }

  /* ---- what closing standups does ---- */

  /** A channel's standup is due to close: it is running, its standup
      exists, and its finish time is not after `now`. */
  predicate StandupDue(w: World, c: Channel, now: int)
  {
    && c.standupInProgress && c.standupId.Some?
    && Find(w.standups, c.standupId.value).Some?
    && Find(w.standups, c.standupId.value).value.timeFinished <= now
  }

  /** The channel `cid` after its standup check: standup fields cleared
      when its standup is due, unchanged otherwise. */
  function Closed(w: World, cid: int, now: int): Option<Channel>
  {
    match Find(w.channels, cid)
    case None => None
    case Some(c) => Some(if StandupDue(w, c, now) then StandupFree(c) else c)
  }

  /** Channel `cid` has a due standup, and it is the standup `sid`. */
  predicate DueFor(w: World, cid: int, sid: int, now: int)
  {
    && Find(w.channels, cid).Some? && StandupDue(w, Find(w.channels, cid).value, now)
    && Find(w.channels, cid).value.standupId == Some(sid)
  }

  /** The standup `sid` after the check of channel `cid`: marked as no
      longer in progress when it is that channel's due standup, unchanged
      otherwise. */
  function ClosedRecord(w: World, cid: int, sid: int, now: int): Option<Standup>
  {
    match Find(w.standups, sid)
    case None => None
    case Some(st) => Some(if DueFor(w, cid, sid, now) then st.(inProgress := false) else st)
  }

  /** Some channel of `cids` has `sid` as its due standup. */
  function AnyDueFor(w: World, cids: seq<int>, sid: int, now: int): bool
    decreases |cids|
  {
    cids != [] && (DueFor(w, cids[0], sid, now) || AnyDueFor(w, cids[1..], sid, now))
  }

  /** The standup `sid` after the checks of the channels `cids`. */
  function MarkedRecord(w: World, cids: seq<int>, sid: int, now: int): Option<Standup>
  {
    match Find(w.standups, sid)
    case None => None
    case Some(st) => Some(if AnyDueFor(w, cids, sid, now) then st.(inProgress := false) else st)
  }

  /** The standup `sid` after the whole pass: marked as no longer in
      progress when some channel has it as its due standup. */
  ghost function PassedRecord(w: World, sid: int, now: int): Option<Standup>
  {
    match Find(w.standups, sid)
    case None => None
    case Some(st) => Some(if exists y :: DueFor(w, y, sid, now) then st.(inProgress := false) else st)
  }

  /** Checking one channel: its standup fields are cleared when its
      standup is due, and that standup record, and no other, is marked as
      no longer in progress. */
  lemma CloseStandupSpec(w: World, cid: int, now: int)
    requires WorldValid(w) && CloseStandup(w, cid, now).ok
    ensures Find(CloseStandup(w, cid, now).world.channels, cid) == Closed(w, cid, now)
    ensures forall x :: Find(CloseStandup(w, cid, now).world.standups, x) == ClosedRecord(w, cid, x, now)
  {
    var c := Find(w.channels, cid).value;
    FindSpec(w.channels, ChannelKey, cid);
    if StandupDue(w, c, now) {
      var st := Find(w.standups, c.standupId.value).value;
      FindSpec(w.standups, StandupKey, c.standupId.value);
      ReplaceSpec(w.standups, StandupKey, st.standupId, st.(inProgress := false));
      var w1 := PutStandup(w, st.(inProgress := false));
      ReplaceSpec(w1.channels, ChannelKey, cid, StandupFree(c));
    }
  }

  /** Whether a channel is due to close depends only on what closing
      another standup leaves alone. */
  lemma ClosedFrame(w: World, w1: World, y: int, now: int)
    requires OnlyStandupsChange(w, w1) && Find(w1.channels, y) == Find(w.channels, y)
    ensures Closed(w1, y, now) == Closed(w, y, now)
  {
  }

  /** Whether a standup is due in some channel depends only on what closing
      another channel's standup leaves alone. */
  lemma {:induction false} AnyDueFrame(w: World, w1: World, cids: seq<int>, sid: int, now: int)
    requires OnlyStandupsChange(w, w1)
    requires forall y :: y in cids ==> Find(w1.channels, y) == Find(w.channels, y)
    ensures AnyDueFor(w1, cids, sid, now) == AnyDueFor(w, cids, sid, now)
    decreases |cids|
  {
    if cids != [] {
      assert cids[0] in cids;
      forall y | y in cids[1..] ensures Find(w1.channels, y) == Find(w.channels, y) {
        assert y in cids;
      }
      AnyDueFrame(w, w1, cids[1..], sid, now);
    }
  }

  /** AnyDueFor is "some listed channel has it as its due standup". */
  lemma {:induction false} AnyDueExists(w: World, cids: seq<int>, sid: int, now: int)
    ensures AnyDueFor(w, cids, sid, now) <==> exists y :: y in cids && DueFor(w, y, sid, now)
    decreases |cids|
  {
    if cids != [] {
      AnyDueExists(w, cids[1..], sid, now);
      assert forall y :: y in cids <==> y == cids[0] || y in cids[1..];
    }
  }

  /** The standup records after the checks of the channels `cids`. */
  lemma {:induction false} MarkFromRecords(w: World, cids: seq<int>, now: int, x: int)
    requires WorldValid(w) && NoDup(cids) && MarkFrom(w, cids, now).ok
    ensures Find(MarkFrom(w, cids, now).world.standups, x) == MarkedRecord(w, cids, x, now)
    decreases |cids|
  {
    if cids != [] {
      CloseStandupFrame(w, cids[0], now);
      CloseStandupSpec(w, cids[0], now);
      assert NoDup(cids[1..]);
      MarkFromRecords(CloseStandup(w, cids[0], now).world, cids[1..], now, x);
      forall y | y in cids[1..] ensures y != cids[0] {
        var k :| 0 <= k < |cids[1..]| && cids[1..][k] == y;
        assert cids[k + 1] == y;
      }
      AnyDueFrame(w, CloseStandup(w, cids[0], now).world, cids[1..], x, now);
      MarkedStep(w, CloseStandup(w, cids[0], now).world, cids, x, now);
    }
  }

  /** One step of MarkFromRecords: the first channel's check followed by
      the rest's is the check of them all. */
  lemma MarkedStep(w: World, w1: World, cids: seq<int>, x: int, now: int)
    requires cids != [] && Find(w1.standups, x) == ClosedRecord(w, cids[0], x, now)
    requires AnyDueFor(w1, cids[1..], x, now) == AnyDueFor(w, cids[1..], x, now)
    ensures MarkedRecord(w1, cids[1..], x, now) == MarkedRecord(w, cids, x, now)
  {
  }

  lemma {:induction false} MarkFromSpec(w: World, cids: seq<int>, now: int, y: int)
    requires WorldValid(w) && NoDup(cids) && MarkFrom(w, cids, now).ok
    ensures Find(MarkFrom(w, cids, now).world.channels, y) == if y in cids then Closed(w, y, now) else Find(w.channels, y)
    decreases |cids|
  {
    if cids != [] {
      var w1 := CloseStandup(w, cids[0], now).world;
      CloseStandupFrame(w, cids[0], now);
      CloseStandupSpec(w, cids[0], now);
      assert NoDup(cids[1..]);
      MarkFromSpec(w1, cids[1..], now, y);
      if y != cids[0] {
        ClosedFrame(w, w1, y, now);
      } else {
        assert y !in cids[1..];
      }
    }
  }

  /** mark_standups_as_completed: every channel whose standup is due has
      its standup fields cleared, every other channel is left as it was,
      and afterwards no channel has a due standup. */
  lemma MarkStandupsSpec(w: World, now: int)
    requires WorldValid(w) && MarkStandups(w, now).ok
    ensures forall y :: Find(MarkStandups(w, now).world.channels, y) == Closed(w, y, now)
    ensures forall y :: Find(MarkStandups(w, now).world.channels, y).Some? ==>
      !StandupDue(MarkStandups(w, now).world, Find(MarkStandups(w, now).world.channels, y).value, now)
    ensures forall x :: Find(MarkStandups(w, now).world.standups, x) == PassedRecord(w, x, now)
  {
    var w' := MarkStandups(w, now).world;
    MarkFromFrame(w, w.channels.ids, now);
    forall y ensures Find(w'.channels, y) == Closed(w, y, now) {
      MarkFromSpec(w, w.channels.ids, now, y);
      FindSpec(w.channels, ChannelKey, y);
    }
    forall x ensures Find(w'.standups, x) == PassedRecord(w, x, now) {
      MarkFromRecords(w, w.channels.ids, now, x);
      AnyDueExists(w, w.channels.ids, x, now);
      forall y | DueFor(w, y, x, now) ensures y in w.channels.ids {
        FindSpec(w.channels, ChannelKey, y);
      }
    }
  }

  /* ---- message counts ---- */

  /** Every channel's message_count is the length of its message list. */
  ghost predicate CountsAgree(w: World)
  {
    forall y :: Find(w.channels, y).Some? ==>
      Find(w.channels, y).value.messageCount == |Find(w.channels, y).value.messageIds|
  }

  lemma SweepCountsAgree(w: World, now: int)
    requires WorldValid(w) && CountsAgree(w) && Sweep(w, now).ok
    ensures CountsAgree(Sweep(w, now).world)
  {
    forall y | Find(Sweep(w, now).world.channels, y).Some?
      ensures Find(Sweep(w, now).world.channels, y).value.messageCount == |Find(Sweep(w, now).world.channels, y).value.messageIds|
    {
      SweepChannel(w, w.unsent, now, y);
    }
  }

  lemma {:induction false} DueInContains(msgs: Doc<Message>, p: seq<int>, cid: int, now: int, x: int)
    requires x in p && IsDue(msgs, x, now) && Find(msgs, x).value.channelId == cid
    ensures x in DueIn(msgs, p, cid, now)
    decreases |p|
  {
    if p[0] != x {
      DueInContains(msgs, p[1..], cid, now, x);
    }
  }

  /** A queued message whose time has come is, after a successful sweep,
      in its channel's message list and no longer queued. */
  lemma SweepDelivers(w: World, now: int, x: int)
    requires WorldValid(w) && Sweep(w, now).ok
    requires x in w.unsent && IsDue(w.messages, x, now)
    requires Find(w.channels, Find(w.messages, x).value.channelId).Some?
    ensures var cid := Find(w.messages, x).value.channelId;
      && Find(Sweep(w, now).world.channels, cid).Some?
      && x in Find(Sweep(w, now).world.channels, cid).value.messageIds
      && x !in Sweep(w, now).world.unsent
  {
    var cid := Find(w.messages, x).value.channelId;
    SweepChannel(w, w.unsent, now, cid);
    DueInContains(w.messages, w.unsent, cid, now, x);
    SweepSpec(w, now);
  }
}
