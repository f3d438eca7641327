/** The persistence layer (backend/src/abstractions.py): five documents,
    one per JSON file, and the queue of messages waiting to be delivered,
    which the source keeps beside the messages.

    `Store` is the mutable state. Its methods are the store's operations:
    each one replaces one document by the result of a document operation,
    so that `Snapshot()` after the call is a function of `Snapshot()`
    before it. `World` is that snapshot as a value; the handlers'
    specifications are functions on worlds. */
module Persistence {
  import opened Wrappers
  import opened Seqs
  import opened Documents
  import opened Records

  datatype World = World(
    channels: Doc<Channel>,
    users: Doc<User>,
    messages: Doc<Message>,
    unsent: seq<int>,
    standups: Doc<Standup>,
    hangmen: Doc<Hangman>)

  /** What a handler leaves behind: the new world and what it returns (or
      the error it raises). */
  datatype Outcome<T> = Outcome(world: World, result: Result<T>)

  /** Every document is valid and the queue holds no id twice. */
  ghost predicate WorldValid(w: World)
  {
    && Valid(w.channels, ChannelKey)
    && Valid(w.users, UserKey)
    && Valid(w.messages, MessageKey)
    && NoDup(w.unsent)
    && Valid(w.standups, StandupKey)
    && Valid(w.hangmen, HangmanKey)
  }

  function EmptyWorld(): World
  {
    World(EmptyDoc(), EmptyDoc(), EmptyDoc(), [], EmptyDoc(), EmptyDoc())
  }

  /** create_unsent_message_id: an id already queued is not queued again. */
  function Enqueue(q: seq<int>, id: int): seq<int>
  {
    if id in q then q else q + [id]
  }

  /** delete_unsent_message_id: an id that is not queued changes nothing. */
  function Dequeue(q: seq<int>, id: int): seq<int>
  {
    if id in q then RemoveFirst(q, id) else q
  }

  /** The two queue operations keep the queue free of duplicates; enqueueing
      adds exactly the id and dequeueing removes exactly the id. */
  lemma {:induction false} QueueSpec(q: seq<int>, id: int)
    requires NoDup(q)
    ensures NoDup(Enqueue(q, id)) && NoDup(Dequeue(q, id))
    ensures forall x :: x in Enqueue(q, id) <==> x in q || x == id
    ensures forall x :: x in Dequeue(q, id) <==> x in q && x != id
  {
    if id in q {
      RemoveFirstNoDup(q, id);
    } else {
      assert forall i :: 0 <= i < |q| ==> q[i] != id;
    }
  }

  /** Writing back a record under its own id. */
  function PutChannel(w: World, c: Channel): World
  {
    w.(channels := Replace(w.channels, c.channelId, c))
  }

  function PutUser(w: World, u: User): World
  {
    w.(users := Replace(w.users, u.userId, u))
  }

  function PutMessage(w: World, m: Message): World
  {
    w.(messages := Replace(w.messages, m.messageId, m))
  }

  function PutStandup(w: World, st: Standup): World
  {
    w.(standups := Replace(w.standups, st.standupId, st))
  }

  function PutHangman(w: World, g: Hangman): World
  {
    w.(hangmen := Replace(w.hangmen, g.hangmanId, g))
  }

  /** Writing back keeps the world valid. */
  lemma PutValid(w: World, c: Channel, u: User, m: Message, st: Standup, g: Hangman)
    requires WorldValid(w)
    ensures WorldValid(PutChannel(w, c)) && WorldValid(PutUser(w, u)) && WorldValid(PutMessage(w, m))
    ensures WorldValid(PutStandup(w, st)) && WorldValid(PutHangman(w, g))
  {
    ReplaceSpec(w.channels, ChannelKey, c.channelId, c);
    ReplaceSpec(w.users, UserKey, u.userId, u);
    ReplaceSpec(w.messages, MessageKey, m.messageId, m);
    ReplaceSpec(w.standups, StandupKey, st.standupId, st);
    ReplaceSpec(w.hangmen, HangmanKey, g.hangmanId, g);
  }

  /** The record create_standup stores under the new id: the given
      window, creator and channel, no buffer message yet, and in progress
      exactly when the current time lies inside the window. Every other
      standup is unchanged. */
  lemma NewStandupStored(d: Doc<Standup>, start: int, finish: int, creator: int, channel: int, now: int)
    requires Valid(d, StandupKey)
    ensures var d' := Insert(d, NewStandup(NextId(d), start, finish, creator, channel, now));
      && Find(d', NextId(d)).Some?
      && Find(d', NextId(d)).value.standupId == NextId(d)
      && Find(d', NextId(d)).value.timeStarted == start && Find(d', NextId(d)).value.timeFinished == finish
      && Find(d', NextId(d)).value.creatorId == creator && Find(d', NextId(d)).value.channelId == channel
      && Find(d', NextId(d)).value.messageId == None
      && (Find(d', NextId(d)).value.inProgress <==> start <= now <= finish)
      && (forall x :: x != NextId(d) ==> Find(d', x) == Find(d, x))
  {
    InsertSpec(d, StandupKey, NewStandup(NextId(d), start, finish, creator, channel, now));
  }

  class Store {
    var channels: Doc<Channel>
    var users: Doc<User>
    var messages: Doc<Message>
    var unsent: seq<int>
    var standups: Doc<Standup>
    var hangmen: Doc<Hangman>

    function Snapshot(): World
      reads this
    {
      World(channels, users, messages, unsent, standups, hangmen)
    }

    ghost predicate Valid()
      reads this
    {
      WorldValid(Snapshot())
    }

    /** Every setup_*_json at once: all documents empty, counters at 0. */
    constructor ()
      ensures Valid() && Snapshot() == EmptyWorld()
    {
      channels, users, messages := EmptyDoc(), EmptyDoc(), EmptyDoc();
      unsent := [];
      standups, hangmen := EmptyDoc(), EmptyDoc();
      EmptyValid(ChannelKey);
      EmptyValid(UserKey);
      EmptyValid(MessageKey);
      EmptyValid(StandupKey);
      EmptyValid(HangmanKey);
    }

    /* ---- resets (setup_*_json) ---- */

    method ResetChannels()
      modifies this
      requires Valid()
      ensures Valid() && Snapshot() == old(Snapshot()).(channels := EmptyDoc())
    {
      channels := EmptyDoc();
      EmptyValid(ChannelKey);
    }

    method ResetUsers()
      modifies this
      requires Valid()
      ensures Valid() && Snapshot() == old(Snapshot()).(users := EmptyDoc())
    {
      users := EmptyDoc();
      EmptyValid(UserKey);
    }

    /** The messages file also holds the queue, so it is emptied too. */
    method ResetMessages()
      modifies this
      requires Valid()
      ensures Valid() && Snapshot() == old(Snapshot()).(messages := EmptyDoc(), unsent := [])
    {
      messages := EmptyDoc();
      unsent := [];
      EmptyValid(MessageKey);
    }

    method ResetStandups()
      modifies this
      requires Valid()
      ensures Valid() && Snapshot() == old(Snapshot()).(standups := EmptyDoc())
    {
      standups := EmptyDoc();
      EmptyValid(StandupKey);
    }

    method ResetHangmen()
      modifies this
      requires Valid()
      ensures Valid() && Snapshot() == old(Snapshot()).(hangmen := EmptyDoc())
    {
      hangmen := EmptyDoc();
      EmptyValid(HangmanKey);
    }

    /* ---- channels ---- */

    method CreateChannel(name: string, private: bool, creator: int) returns (id: int)
      modifies this
      requires Valid()
      ensures Valid()
      ensures id == NextId(old(channels)) && id !in old(channels.ids)
      ensures Snapshot() == old(Snapshot()).(channels := Insert(old(channels), NewChannel(id, name, private, creator)))
    {
      id := channels.latestId + 1;
      InsertSpec(channels, ChannelKey, NewChannel(id, name, private, creator));
      channels := Doc(id, channels.ids + [id], channels.records + [NewChannel(id, name, private, creator)]);
    }

    method GetChannel(id: int) returns (c: Option<Channel>)
      requires Valid()
      ensures c == Find(channels, id)
      ensures c.Some? <==> id in channels.ids
      ensures c.Some? ==> c.value.channelId == id
    {
      c := Get(channels, ChannelKey, id);
    }

    method UpdateChannel(id: int, c: Channel) returns (res: Result<()>)
      modifies this
      requires Valid()
      ensures Valid()
      ensures res == if id != c.channelId then Err(DataError) else Ok(())
      ensures Snapshot() == old(Snapshot()).(channels := if id == c.channelId then Replace(old(channels), id, c) else old(channels))
    {
      channels, res := Update(channels, ChannelKey, id, c);
    }

    method DeleteChannel(id: int) returns (found: bool)
      modifies this
      requires Valid()
      ensures Valid()
      ensures found <==> id in old(channels.ids)
      ensures Snapshot() == old(Snapshot()).(channels := Remove(old(channels), id))
    {
      channels, found := Delete(channels, ChannelKey, id);
    }

    /* ---- users ---- */

    method CreateUser(first: string, last: string, email: string, password: string) returns (id: int)
      modifies this
      requires Valid()
      ensures Valid()
      ensures id == NextId(old(users)) && id !in old(users.ids)
      ensures Snapshot() == old(Snapshot()).(users := Insert(old(users), NewUser(id, first, last, email, password)))
    {
      id := users.latestId + 1;
      InsertSpec(users, UserKey, NewUser(id, first, last, email, password));
      users := Doc(id, users.ids + [id], users.records + [NewUser(id, first, last, email, password)]);
    }

    method GetUser(id: int) returns (u: Option<User>)
      requires Valid()
      ensures u == Find(users, id)
      ensures u.Some? <==> id in users.ids
      ensures u.Some? ==> u.value.userId == id
    {
      u := Get(users, UserKey, id);
    }

    method UpdateUser(id: int, u: User) returns (res: Result<()>)
      modifies this
      requires Valid()
      ensures Valid()
      ensures res == if id != u.userId then Err(DataError) else Ok(())
      ensures Snapshot() == old(Snapshot()).(users := if id == u.userId then Replace(old(users), id, u) else old(users))
    {
      users, res := Update(users, UserKey, id, u);
    }

    method DeleteUser(id: int) returns (found: bool)
      modifies this
      requires Valid()
      ensures Valid()
      ensures found <==> id in old(users.ids)
      ensures Snapshot() == old(Snapshot()).(users := Remove(old(users), id))
    {
      users, found := Delete(users, UserKey, id);
    }

    /* ---- messages ---- */

    /** The message is stamped with the current time `now`. */
    method CreateMessage(author: int, content: string, channel: int, now: int) returns (id: int)
      modifies this
      requires Valid()
      ensures Valid()
      ensures id == NextId(old(messages)) && id !in old(messages.ids)
      ensures Snapshot() == old(Snapshot()).(messages := Insert(old(messages), NewMessage(id, author, channel, content, now)))
    {
      id := messages.latestId + 1;
      InsertSpec(messages, MessageKey, NewMessage(id, author, channel, content, now));
      messages := Doc(id, messages.ids + [id], messages.records + [NewMessage(id, author, channel, content, now)]);
    }

    method GetMessage(id: int) returns (m: Option<Message>)
      requires Valid()
      ensures m == Find(messages, id)
      ensures m.Some? <==> id in messages.ids
      ensures m.Some? ==> m.value.messageId == id
    {
      m := Get(messages, MessageKey, id);
    }

    method UpdateMessage(id: int, m: Message) returns (res: Result<()>)
      modifies this
      requires Valid()
      ensures Valid()
      ensures res == if id != m.messageId then Err(DataError) else Ok(())
      ensures Snapshot() == old(Snapshot()).(messages := if id == m.messageId then Replace(old(messages), id, m) else old(messages))
    {
      messages, res := Update(messages, MessageKey, id, m);
    }

    method DeleteMessage(id: int) returns (found: bool)
      modifies this
      requires Valid()
      ensures Valid()
      ensures found <==> id in old(messages.ids)
      ensures Snapshot() == old(Snapshot()).(messages := Remove(old(messages), id))
    {
      messages, found := Delete(messages, MessageKey, id);
    }

    /** create_unsent_message_id: False-y when the id is already queued. */
    method CreateUnsentMessageId(id: int) returns (added: bool)
      modifies this
      requires Valid()
      ensures Valid()
      ensures added <==> id !in old(unsent)
      ensures Snapshot() == old(Snapshot()).(unsent := Enqueue(old(unsent), id))
    {
      QueueSpec(unsent, id);
      if id in unsent {
        return false;
      }
      unsent := unsent + [id];
      added := true;
    }

    /** delete_unsent_message_id: False-y when the id is not queued. */
    method DeleteUnsentMessageId(id: int) returns (found: bool)
      modifies this
      requires Valid()
      ensures Valid()
      ensures found <==> id in old(unsent)
      ensures Snapshot() == old(Snapshot()).(unsent := Dequeue(old(unsent), id))
    {
      QueueSpec(unsent, id);
      if id !in unsent {
        return false;
      }
      unsent := RemoveFirst(unsent, id);
      found := true;
    }

    /* ---- standups ---- */

    /** The standup is in progress when `now` lies inside its window. */
    method CreateStandup(start: int, finish: int, creator: int, channel: int, now: int) returns (id: int)
      modifies this
      requires Valid()
      ensures Valid()
      ensures id == NextId(old(standups)) && id !in old(standups.ids)
      ensures Snapshot() == old(Snapshot()).(standups := Insert(old(standups), NewStandup(id, start, finish, creator, channel, now)))
    {
      id := standups.latestId + 1;
      var inProgress := start <= now && now <= finish;
      var st := Standup(id, start, finish, creator, channel, inProgress, None);
      InsertSpec(standups, StandupKey, st);
      standups := Doc(id, standups.ids + [id], standups.records + [st]);
    }

    method GetStandup(id: int) returns (st: Option<Standup>)
      requires Valid()
      ensures st == Find(standups, id)
      ensures st.Some? <==> id in standups.ids
      ensures st.Some? ==> st.value.standupId == id
    {
      st := Get(standups, StandupKey, id);
    }

    method UpdateStandup(id: int, st: Standup) returns (res: Result<()>)
      modifies this
      requires Valid()
      ensures Valid()
      ensures res == if id != st.standupId then Err(DataError) else Ok(())
      ensures Snapshot() == old(Snapshot()).(standups := if id == st.standupId then Replace(old(standups), id, st) else old(standups))
    {
      standups, res := Update(standups, StandupKey, id, st);
    }

    method DeleteStandup(id: int) returns (found: bool)
      modifies this
      requires Valid()
      ensures Valid()
      ensures found <==> id in old(standups.ids)
      ensures Snapshot() == old(Snapshot()).(standups := Remove(old(standups), id))
    {
      standups, found := Delete(standups, StandupKey, id);
    }

    /* ---- hangman games ---- */

    method CreateHangman(word: string, creator: int, channel: int, topic: Option<string>) returns (id: int)
      modifies this
      requires Valid()
      ensures Valid()
      ensures id == NextId(old(hangmen)) && id !in old(hangmen.ids)
      ensures Snapshot() == old(Snapshot()).(hangmen := Insert(old(hangmen), NewHangman(id, word, creator, channel, topic)))
    {
      id := hangmen.latestId + 1;
      InsertSpec(hangmen, HangmanKey, NewHangman(id, word, creator, channel, topic));
      hangmen := Doc(id, hangmen.ids + [id], hangmen.records + [NewHangman(id, word, creator, channel, topic)]);
    }

    method GetHangman(id: int) returns (g: Option<Hangman>)
      requires Valid()
      ensures g == Find(hangmen, id)
      ensures g.Some? <==> id in hangmen.ids
      ensures g.Some? ==> g.value.hangmanId == id
    {
      g := Get(hangmen, HangmanKey, id);
    }

    method UpdateHangman(id: int, g: Hangman) returns (res: Result<()>)
      modifies this
      requires Valid()
      ensures Valid()
      ensures res == if id != g.hangmanId then Err(DataError) else Ok(())
      ensures Snapshot() == old(Snapshot()).(hangmen := if id == g.hangmanId then Replace(old(hangmen), id, g) else old(hangmen))
    {
      hangmen, res := Update(hangmen, HangmanKey, id, g);
    }

    method DeleteHangman(id: int) returns (found: bool)
      modifies this
      requires Valid()
      ensures Valid()
      ensures found <==> id in old(hangmen.ids)
      ensures Snapshot() == old(Snapshot()).(hangmen := Remove(old(hangmen), id))
    {
      hangmen, found := Delete(hangmen, HangmanKey, id);
    }
  }
}
