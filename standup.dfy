/** Standups (backend/src/standup.py). Starting a standup creates the
    standup record and an empty buffer message that waits in the unsent
    queue until the standup's finish time; each standup send appends one
    line to that buffer. The sweep (module Delivery) delivers the buffer and
    closes the standup. */
module StandupService {
  import opened Wrappers
  import opened Documents
  import opened Records
  import opened Persistence
  import opened AuthService
  import opened Delivery

  /** A standup message may have at most this many characters. */
  const MaxStandupMessageLength := 1000

  /** What standup_active reports. */
  datatype StandupStatus = StandupStatus(isActive: bool, timeFinish: Option<int>)

  /** The line a standup send adds to the buffer: the sender's handle, a
      colon and four spaces, the text, a newline. */
  function BufferLine(handle: string, text: string): (r: string)
    ensures |r| == |handle| + |text| + 6
    ensures r[..|handle|] == handle && r[|handle|..|handle| + 5] == ":    "
    ensures r[|handle| + 5..|r| - 1] == text && r[|r| - 1] == '\n'
  {
    handle + ":    " + text + "\n"
  }

  /** The id of channel `cid`'s buffer message, when the channel, its
      standup and the standup's message id exist. */
  function BufferId(w: World, cid: int): Option<int>
  {
    match Find(w.channels, cid)
    case None => None
    case Some(c) =>
      match c.standupId
      case None => None
      case Some(sid) =>
        match Find(w.standups, sid)
        case None => None
        case Some(st) => st.messageId
  }

  /* ---- standup_start ---- */

  /** standup_start: token (AccessError), channel (InputError), a standup
      already running (InputError); then the standup, the buffer message
      timed for the finish, the queue entry and the channel's standup
      fields. There is no membership check. */
  function StandupStartSpec(w: World, caller: int, cid: int, length: int, now: int): Outcome<int>
  {
    match TokenValid(w, caller)
    case Err(e) => Outcome(w, Err(e))
    case Ok(valid) =>
      if !valid then Outcome(w, Err(AccessError))
      else
        match Find(w.channels, cid)
        case None => Outcome(w, Err(InputError))
        case Some(c) =>
          if c.standupInProgress then Outcome(w, Err(InputError))
          else
            var finish := now + length;
            var sid := NextId(w.standups);
            var st := NewStandup(sid, now, finish, caller, cid, now);
            var w1 := w.(standups := Insert(w.standups, st));
            var mid := NextId(w1.messages);
            var m := NewMessage(mid, caller, c.channelId, "", now);
            var w2 := w1.(messages := Insert(w1.messages, m));
            var w3 := PutMessage(w2, m.(time := finish));
            var w4 := PutStandup(w3, st.(messageId := Some(mid)));
            var w5 := w4.(unsent := Enqueue(w4.unsent, mid));
            Outcome(PutChannel(w5, c.(standupInProgress := true, standupId := Some(sid))), Ok(finish))
  }

  method StandupStart(s: Persistence.Store, caller: int, cid: int, length: int, now: int) returns (r: Result<int>)
    modifies s
    requires s.Valid()
    ensures s.Valid()
    ensures Outcome(s.Snapshot(), r) == StandupStartSpec(old(s.Snapshot()), caller, cid, length, now)
  {
    var valid := CheckValidToken(s, caller);
    if valid.Err? {
      return Err(valid.error);
    }
    if !valid.value {
      return Err(AccessError);
    }
    var channel := s.GetChannel(cid);
    if channel.None? {
      return Err(InputError);
    }
    var c := channel.value;
    if c.standupInProgress {
      return Err(InputError);
    }
    var finish := now + length;
    ghost var st0 := s.standups;
    var sid := s.CreateStandup(now, finish, caller, cid, now);
    InsertSpec(st0, StandupKey, NewStandup(sid, now, finish, caller, cid, now));
    c := c.(standupInProgress := true, standupId := Some(sid));
    ghost var m0 := s.messages;
    var mid := s.CreateMessage(caller, "", c.channelId, now);
    InsertSpec(m0, MessageKey, NewMessage(mid, caller, c.channelId, "", now));
    var message := s.GetMessage(mid);
    var _ := s.UpdateMessage(mid, message.value.(time := finish));
    var standup := s.GetStandup(sid);
    var _ := s.UpdateStandup(sid, standup.value.(messageId := Some(mid)));
    var _ := s.CreateUnsentMessageId(mid);
    var _ := s.UpdateChannel(cid, c);
    r := Ok(finish);
  }

  /** What a successful start writes, document by document: the new
      standup, then its id recorded on it; the new buffer message, then its
      time moved to the finish; the buffer id queued; the channel marked. */
  lemma StandupStartFields(w: World, caller: int, cid: int, length: int, now: int)
    requires StandupStartSpec(w, caller, cid, length, now).result.Ok?
    ensures TokenValid(w, caller) == Ok(true) && Find(w.channels, cid).Some?
    ensures !Find(w.channels, cid).value.standupInProgress
    ensures var o := StandupStartSpec(w, caller, cid, length, now);
      var c := Find(w.channels, cid).value;
      var sid := NextId(w.standups);
      var mid := NextId(w.messages);
      var st := NewStandup(sid, now, now + length, caller, cid, now);
      var m := NewMessage(mid, caller, c.channelId, "", now);
      && o.result == Ok(now + length)
      && o.world.standups == Replace(Insert(w.standups, st), sid, st.(messageId := Some(mid)))
      && o.world.messages == Replace(Insert(w.messages, m), mid, m.(time := now + length))
      && o.world.unsent == Enqueue(w.unsent, mid)
      && o.world.channels == Replace(w.channels, c.channelId, c.(standupInProgress := true, standupId := Some(sid)))
      && o.world.users == w.users && o.world.hangmen == w.hangmen
  {
  }

  /** A successful start records a standup from now to now + length that
      knows its buffer message; the buffer is an empty message by the
      caller, timed for the finish and queued; the channel points at the
      standup and is marked as having one running. */
  lemma StandupStartSuccess(w: World, caller: int, cid: int, length: int, now: int)
    requires WorldValid(w) && StandupStartSpec(w, caller, cid, length, now).result.Ok?
    ensures WorldValid(StandupStartSpec(w, caller, cid, length, now).world)
    ensures StandupStartSpec(w, caller, cid, length, now).result == Ok(now + length)
    ensures Find(w.channels, cid).Some? && !Find(w.channels, cid).value.standupInProgress
    ensures Find(StandupStartSpec(w, caller, cid, length, now).world.channels, cid)
      == Some(Find(w.channels, cid).value.(standupInProgress := true, standupId := Some(NextId(w.standups))))
    ensures Find(StandupStartSpec(w, caller, cid, length, now).world.standups, NextId(w.standups))
      == Some(Standup(NextId(w.standups), now, now + length, caller, cid, length >= 0, Some(NextId(w.messages))))
    ensures Find(StandupStartSpec(w, caller, cid, length, now).world.messages, NextId(w.messages))
      == Some(NewMessage(NextId(w.messages), caller, cid, "", now + length))
    ensures NextId(w.messages) in StandupStartSpec(w, caller, cid, length, now).world.unsent
    ensures BufferId(StandupStartSpec(w, caller, cid, length, now).world, cid) == Some(NextId(w.messages))
    ensures StandupStartSpec(w, caller, cid, length, now).world.users == w.users
    ensures StandupStartSpec(w, caller, cid, length, now).world.hangmen == w.hangmen
  {
    // The records are written out in full rather than bound to local
    // names, so that they match StandupStartFields term for term.
    StandupStartFields(w, caller, cid, length, now);
    FindSpec(w.channels, ChannelKey, cid);
    InsertReplaceFound(w.standups, StandupKey,
      NewStandup(NextId(w.standups), now, now + length, caller, cid, now),
      NewStandup(NextId(w.standups), now, now + length, caller, cid, now).(messageId := Some(NextId(w.messages))));
    InsertReplaceFound(w.messages, MessageKey,
      NewMessage(NextId(w.messages), caller, Find(w.channels, cid).value.channelId, "", now),
      NewMessage(NextId(w.messages), caller, Find(w.channels, cid).value.channelId, "", now).(time := now + length));
    StartedStandup(NextId(w.standups), now, length, caller, cid, NextId(w.messages));
    QueueSpec(w.unsent, NextId(w.messages));
    ReplaceFound(w.channels, ChannelKey, Find(w.channels, cid).value.channelId,
      Find(w.channels, cid).value.(standupInProgress := true, standupId := Some(NextId(w.standups))));
  }

  /** The standup a start records is in progress exactly when the length is
      not negative. */
  lemma StartedStandup(sid: int, now: int, length: int, caller: int, cid: int, mid: int)
    ensures NewStandup(sid, now, now + length, caller, cid, now).(messageId := Some(mid))
      == Standup(sid, now, now + length, caller, cid, length >= 0, Some(mid))
  {
  }

  /* ---- standup_active ---- */

  /** standup_active: token (AccessError), channel (InputError); the
      channel's flag, and the standup's finish time when the flag is set.
      Nothing is swept first, so the flag is what the last sweep left. */
  function StandupActiveSpec(w: World, caller: int, cid: int): Result<StandupStatus>
  {
    match TokenValid(w, caller)
    case Err(e) => Err(e)
    case Ok(valid) =>
      if !valid then Err(AccessError)
      else
        match Find(w.channels, cid)
        case None => Err(InputError)
        case Some(c) =>
          if !c.standupInProgress then Ok(StandupStatus(false, None))
          else
            match c.standupId
            case None => Err(Fault)
            case Some(sid) =>
              match Find(w.standups, sid)
              case None => Err(Fault)
              case Some(st) => Ok(StandupStatus(true, Some(st.timeFinished)))
  }

  method StandupActive(s: Persistence.Store, caller: int, cid: int) returns (r: Result<StandupStatus>)
    requires s.Valid()
    ensures r == StandupActiveSpec(s.Snapshot(), caller, cid)
  {
    var valid := CheckValidToken(s, caller);
    if valid.Err? {
      return Err(valid.error);
    }
    if !valid.value {
      return Err(AccessError);
    }
    var channel := s.GetChannel(cid);
    if channel.None? {
      return Err(InputError);
    }
    if !channel.value.standupInProgress {
      return Ok(StandupStatus(false, None));
    }
    if channel.value.standupId.None? {
      return Err(Fault);
    }
    var st := s.GetStandup(channel.value.standupId.value);
    if st.None? {
      return Err(Fault);
    }
    r := Ok(StandupStatus(true, Some(st.value.timeFinished)));
  }

  /** Right after a successful start the standup is reported active with
      the finish time the start returned, and a second start is refused. */
  lemma StartThenActive(w: World, caller: int, cid: int, length: int, now: int, later: int)
    requires WorldValid(w) && StandupStartSpec(w, caller, cid, length, now).result.Ok?
    ensures StandupStartSpec(w, caller, cid, length, now).result == Ok(now + length)
    ensures StandupActiveSpec(StandupStartSpec(w, caller, cid, length, now).world, caller, cid)
      == Ok(StandupStatus(true, Some(now + length)))
    ensures var w' := StandupStartSpec(w, caller, cid, length, now).world;
      StandupStartSpec(w', caller, cid, length, later) == Outcome(w', Err(InputError))
  {
    StandupStartSuccess(w, caller, cid, length, now);
    StartedThenActive(w, caller, cid, length, now, later);
  }

  /** The step of StartThenActive that needs only what a successful start
      wrote, not the document invariants. */
  lemma StartedThenActive(w: World, caller: int, cid: int, length: int, now: int, later: int)
    requires StandupStartSpec(w, caller, cid, length, now).result == Ok(now + length)
    requires StandupStartSpec(w, caller, cid, length, now).world.users == w.users
    requires Find(w.channels, cid).Some?
    requires Find(StandupStartSpec(w, caller, cid, length, now).world.channels, cid)
      == Some(Find(w.channels, cid).value.(standupInProgress := true, standupId := Some(NextId(w.standups))))
    requires Find(StandupStartSpec(w, caller, cid, length, now).world.standups, NextId(w.standups))
      == Some(Standup(NextId(w.standups), now, now + length, caller, cid, length >= 0, Some(NextId(w.messages))))
    ensures StandupActiveSpec(StandupStartSpec(w, caller, cid, length, now).world, caller, cid)
      == Ok(StandupStatus(true, Some(now + length)))
    ensures var w' := StandupStartSpec(w, caller, cid, length, now).world;
      StandupStartSpec(w', caller, cid, length, later) == Outcome(w', Err(InputError))
  {
    StandupStartFields(w, caller, cid, length, now);
    // The token is still valid: the start left the users alone.
    assert TokenValid(StandupStartSpec(w, caller, cid, length, now).world, caller) == Ok(true);
    ActiveShows(StandupStartSpec(w, caller, cid, length, now).world, caller, cid, NextId(w.standups), now + length);
    StartRefused(StandupStartSpec(w, caller, cid, length, now).world, caller, cid, length, later);
  }

  /** A logged-in caller cannot start a standup on a channel marked as
      running one. */
  lemma StartRefused(w: World, caller: int, cid: int, length: int, now: int)
    requires TokenValid(w, caller) == Ok(true) && Find(w.channels, cid).Some?
    requires Find(w.channels, cid).value.standupInProgress
    ensures StandupStartSpec(w, caller, cid, length, now) == Outcome(w, Err(InputError))
  {
  }

  /** A logged-in caller asking about a channel marked as running a stored
      standup is told its finish time. */
  lemma ActiveShows(w: World, caller: int, cid: int, sid: int, finish: int)
    requires TokenValid(w, caller) == Ok(true) && Find(w.channels, cid).Some?
    requires Find(w.channels, cid).value.standupInProgress && Find(w.channels, cid).value.standupId == Some(sid)
    requires Find(w.standups, sid).Some? && Find(w.standups, sid).value.timeFinished == finish
    ensures StandupActiveSpec(w, caller, cid) == Ok(StandupStatus(true, Some(finish)))
  {
  }

  /** Once a closing pass runs at or after the finish time, the channel's
      standup fields are cleared, so the standup is reported inactive and
      a new standup may start. */
  lemma StandupEndsAtFinish(w: World, caller: int, cid: int, length: int, now: int, later: int)
    requires WorldValid(w) && StandupStartSpec(w, caller, cid, length, now).result.Ok?
    requires now + length <= later
    requires MarkStandups(StandupStartSpec(w, caller, cid, length, now).world, later).ok
    ensures var w' := MarkStandups(StandupStartSpec(w, caller, cid, length, now).world, later).world;
      && Find(w'.channels, cid).Some?
      && !Find(w'.channels, cid).value.standupInProgress
      && Find(w'.channels, cid).value.standupId == None
      && StandupActiveSpec(w', caller, cid) == Ok(StandupStatus(false, None))
  {
    StandupStartSuccess(w, caller, cid, length, now);
    var w1 := StandupStartSpec(w, caller, cid, length, now).world;
    MarkStandupsSpec(w1, later);
    MarkFromFrame(w1, w1.channels.ids, later);
  }

  /** A delivering sweep at or after the finish time puts the buffer
      message into the channel. */
  lemma StandupDelivered(w: World, caller: int, cid: int, length: int, now: int, later: int)
    requires WorldValid(w) && StandupStartSpec(w, caller, cid, length, now).result.Ok?
    requires now + length <= later
    requires Sweep(StandupStartSpec(w, caller, cid, length, now).world, later).ok
    ensures var w' := Sweep(StandupStartSpec(w, caller, cid, length, now).world, later).world;
      && Find(w'.channels, cid).Some?
      && NextId(w.messages) in Find(w'.channels, cid).value.messageIds
      && NextId(w.messages) !in w'.unsent
  {
    StandupStartSuccess(w, caller, cid, length, now);
    var w1 := StandupStartSpec(w, caller, cid, length, now).world;
    SweepDelivers(w1, later, NextId(w.messages));
  }

  /* ---- standup_send ---- */

  /** standup_send: token (AccessError), channel (InputError), length
      (InputError), no standup running (InputError), non-member
      (AccessError); then one line is appended to the buffer message. A
      missing standup or buffer faults. */
  function StandupSendSpec(w: World, caller: int, cid: int, text: string): Outcome<()>
  {
    match TokenValid(w, caller)
    case Err(e) => Outcome(w, Err(e))
    case Ok(valid) =>
      if !valid then Outcome(w, Err(AccessError))
      else
        match Find(w.channels, cid)
        case None => Outcome(w, Err(InputError))
        case Some(c) =>
          if |text| > MaxStandupMessageLength then Outcome(w, Err(InputError))
          else if !c.standupInProgress then Outcome(w, Err(InputError))
          else if caller !in c.memberIds then Outcome(w, Err(AccessError))
          else
            match BufferId(w, cid)
            case None => Outcome(w, Err(Fault))
            case Some(mid) =>
              match Find(w.messages, mid)
              case None => Outcome(w, Err(Fault))
              case Some(m) =>
                var u := Find(w.users, caller).value;
                Outcome(PutMessage(w, m.(content := m.content + BufferLine(u.handle, text))), Ok(()))
  }

  method StandupSend(s: Persistence.Store, caller: int, cid: int, text: string) returns (r: Result<()>)
    modifies s
    requires s.Valid()
    ensures s.Valid()
    ensures Outcome(s.Snapshot(), r) == StandupSendSpec(old(s.Snapshot()), caller, cid, text)
  {
    var valid := CheckValidToken(s, caller);
    if valid.Err? {
      return Err(valid.error);
    }
    if !valid.value {
      return Err(AccessError);
    }
    var channel := s.GetChannel(cid);
    if channel.None? {
      return Err(InputError);
    }
    if |text| > MaxStandupMessageLength {
      return Err(InputError);
    }
    if !channel.value.standupInProgress {
      return Err(InputError);
    }
    if caller !in channel.value.memberIds {
      return Err(AccessError);
    }
    if channel.value.standupId.None? {
      return Err(Fault);
    }
    var standup := s.GetStandup(channel.value.standupId.value);
    var user := s.GetUser(caller);
    if standup.None? || standup.value.messageId.None? {
      return Err(Fault);
    }
    var m := s.GetMessage(standup.value.messageId.value);
    if m.None? {
      return Err(Fault);
    }
    var m' := m.value.(content := m.value.content + BufferLine(user.value.handle, text));
    var _ := s.UpdateMessage(standup.value.messageId.value, m');
    r := Ok(());
  }

  /** A successful standup send appends the sender's line to the buffer
      message and changes nothing else. */
  lemma StandupSendAppends(w: World, caller: int, cid: int, text: string)
    requires WorldValid(w) && StandupSendSpec(w, caller, cid, text).result.Ok?
    ensures Find(w.users, caller).Some? && BufferId(w, cid).Some? && Find(w.messages, BufferId(w, cid).value).Some?
    ensures var w' := StandupSendSpec(w, caller, cid, text).world;
      var mid := BufferId(w, cid).value;
      && WorldValid(w')
      && w'.channels == w.channels && w'.standups == w.standups && w'.users == w.users && w'.unsent == w.unsent
      && w'.messages.ids == w.messages.ids
      && Find(w'.messages, mid).Some?
      && Find(w'.messages, mid).value.content
         == Find(w.messages, mid).value.content + BufferLine(Find(w.users, caller).value.handle, text)
      && (forall x :: x != mid ==> Find(w'.messages, x) == Find(w.messages, x))
  {
    var mid := BufferId(w, cid).value;
    var m := Find(w.messages, mid).value;
    FindSpec(w.messages, MessageKey, mid);
    var u := Find(w.users, caller).value;
    ReplaceSpec(w.messages, MessageKey, mid, m.(content := m.content + BufferLine(u.handle, text)));
  }

  /** The buffer after one successful send, and what that send keeps. */
  lemma SendStep(w: World, caller: int, cid: int, text: string)
    requires WorldValid(w) && StandupSendSpec(w, caller, cid, text).result.Ok?
    ensures Find(w.users, caller).Some? && BufferId(w, cid).Some? && Find(w.messages, BufferId(w, cid).value).Some?
    ensures var w' := StandupSendSpec(w, caller, cid, text).world;
      var mid := BufferId(w, cid).value;
      var m := Find(w.messages, mid).value;
      && WorldValid(w')
      && w'.channels == w.channels && w'.standups == w.standups && w'.users == w.users
      && Find(w'.messages, mid) == Some(m.(content := m.content + BufferLine(Find(w.users, caller).value.handle, text)))
  {
    var mid := BufferId(w, cid).value;
    var m := Find(w.messages, mid).value;
    FindSpec(w.messages, MessageKey, mid);
    var u := Find(w.users, caller).value;
    ReplaceFound(w.messages, MessageKey, mid, m.(content := m.content + BufferLine(u.handle, text)));
  }

  /** The lines a run of sends by one user adds, in order. */
  function Transcript(handle: string, texts: seq<string>): string
  {
    if texts == [] then "" else BufferLine(handle, texts[0]) + Transcript(handle, texts[1..])
  }

  /** Appending the first line and then the rest is appending the whole
      transcript. */
  lemma TranscriptCons(prefix: string, handle: string, texts: seq<string>)
    requires texts != []
    ensures (prefix + BufferLine(handle, texts[0])) + Transcript(handle, texts[1..]) == prefix + Transcript(handle, texts)
  {
  }

  /** A run of standup sends by one user, stopping at the first error. */
  function SendAll(w: World, caller: int, cid: int, texts: seq<string>): Outcome<()>
    decreases |texts|
  {
    if texts == [] then Outcome(w, Ok(()))
    else
      var o := StandupSendSpec(w, caller, cid, texts[0]);
      if o.result.Err? then o else SendAll(o.world, caller, cid, texts[1..])
  }

  /** The first send of a successful run succeeds, keeps the buffer where
      it was and leaves the rest of the run to the remaining texts. */
  lemma SendAllUnfold(w: World, caller: int, cid: int, texts: seq<string>)
    requires texts != [] && SendAll(w, caller, cid, texts).result.Ok?
    ensures StandupSendSpec(w, caller, cid, texts[0]).result.Ok?
    ensures var w1 := StandupSendSpec(w, caller, cid, texts[0]).world;
      && SendAll(w, caller, cid, texts) == SendAll(w1, caller, cid, texts[1..])
      && w1.channels == w.channels && w1.standups == w.standups && w1.users == w.users
  {
  }

  /** After a successful run of sends the buffer holds what it held before
      followed by one line per send, in the order they were sent. */
  lemma {:induction false} SendAllTranscript(w: World, caller: int, cid: int, texts: seq<string>)
    requires WorldValid(w) && SendAll(w, caller, cid, texts).result.Ok?
    requires Find(w.users, caller).Some? && BufferId(w, cid).Some? && Find(w.messages, BufferId(w, cid).value).Some?
    ensures var w' := SendAll(w, caller, cid, texts).world;
      var mid := BufferId(w, cid).value;
      && WorldValid(w')
      && BufferId(w', cid) == BufferId(w, cid) && w'.users == w.users
      && Find(w'.messages, mid).Some?
      && Find(w'.messages, mid).value.content
         == Find(w.messages, mid).value.content + Transcript(Find(w.users, caller).value.handle, texts)
    decreases |texts|
  {
    var mid := BufferId(w, cid).value;
    var handle := Find(w.users, caller).value.handle;
    if texts == [] {
      assert Find(w.messages, mid).value.content + "" == Find(w.messages, mid).value.content;
    } else {
      SendAllUnfold(w, caller, cid, texts);
      SendStep(w, caller, cid, texts[0]);
      var w1 := StandupSendSpec(w, caller, cid, texts[0]).world;
      assert BufferId(w1, cid) == BufferId(w, cid);
      SendAllTranscript(w1, caller, cid, texts[1..]);
      TranscriptCons(Find(w.messages, mid).value.content, handle, texts);
    }
  }
}
