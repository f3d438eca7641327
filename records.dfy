/** The records the backend stores, one datatype per kind of JSON object,
    with the shapes the store's create operations give new records. Times
    are integer timestamps. */
module Records {
  import opened Wrappers
  import opened Text

  /** One entry of a message's reaction list: a react id and the users
      who reacted with it. */
  datatype Reaction = Reaction(reactId: int, uIds: seq<int>)

  datatype Message = Message(
    messageId: int,
    authorId: int,
    channelId: int,
    content: string,
    time: int,
    reactions: seq<Reaction>,
    pinned: bool,
    edited: bool)

  /** A channel. `ownerIds` and `memberIds` are independent lists: nothing
      keeps owners among the members, and a list may name a user twice. */
  datatype Channel = Channel(
    channelId: int,
    name: string,
    private: bool,
    ownerIds: seq<int>,
    memberIds: seq<int>,
    messageCount: int,
    standupInProgress: bool,
    standupId: Option<int>,
    hangmanId: Option<int>,
    messageIds: seq<int>)

  /** A user. `permissionLevel` 1 is a global owner, 2 an ordinary member. */
  datatype User = User(
    userId: int,
    firstName: string,
    lastName: string,
    email: string,
    password: string,
    handle: string,
    loggedIn: bool,
    profilePicUrl: string,
    permissionLevel: int)

  /** A standup: its time window, who started it, where, and the buffer
      message it collects into once that message exists. */
  datatype Standup = Standup(
    standupId: int,
    timeStarted: int,
    timeFinished: int,
    creatorId: int,
    channelId: int,
    inProgress: bool,
    messageId: Option<int>)

  /** A hangman game. `guesses` is the mask shown to players: None for a
      letter not yet found, otherwise the text shown at that position. */
  datatype Hangman = Hangman(
    hangmanId: int,
    topic: Option<string>,
    word: string,
    guesses: seq<Option<string>>,
    incorrectGuesses: seq<string>,
    lives: int,
    creatorId: int,
    channelId: int,
    finished: bool)

  function ChannelKey(c: Channel): int { c.channelId }
  function UserKey(u: User): int { u.userId }
  function MessageKey(m: Message): int { m.messageId }
  function StandupKey(s: Standup): int { s.standupId }
  function HangmanKey(h: Hangman): int { h.hangmanId }

  /** The permission level every new user gets. */
  const MemberPermission := 2
  /** The permission level of a global owner. */
  const OwnerPermission := 1
  /** The lives a new hangman game starts with. */
  const StartingLives := 6
  /** The picture a new user starts with. */
  const DefaultPicture := "default.jpg"

  /** A new channel: the creator is its one owner and its one member, it
      has no messages, no standup and no game. */
  function NewChannel(id: int, name: string, private: bool, creator: int): Channel
  {
    Channel(id, name, private, [creator], [creator], 0, false, None, None, [])
  }

  /** A new user: no handle, logged out, default picture, ordinary member. */
  function NewUser(id: int, first: string, last: string, email: string, password: string): User
  {
    User(id, first, last, email, password, "", false, DefaultPicture, MemberPermission)
  }

  /** A new message, stamped with the time it is created. */
  function NewMessage(id: int, author: int, channel: int, content: string, now: int): Message
  {
    Message(id, author, channel, content, now, [], false, false)
  }

  /** A new standup; it is in progress when the current time lies inside
      its window. */
  function NewStandup(id: int, start: int, finish: int, creator: int, channel: int, now: int): Standup
  {
    Standup(id, start, finish, creator, channel, start <= now && now <= finish, None)
  }

  /** The mask of a new game: one entry per character of the word, hidden
      where the character is a letter and shown as itself elsewhere. */
  function InitialMask(word: string): (r: seq<Option<string>>)
    ensures |r| == |word|
    ensures forall i :: 0 <= i < |word| ==> (r[i] == None <==> IsAlpha(word[i]))
    ensures forall i :: 0 <= i < |word| && !IsAlpha(word[i]) ==> r[i] == Some([word[i]])
  {
    if word == [] then []
    else [if IsAlpha(word[0]) then None else Some([word[0]])] + InitialMask(word[1..])
  }

  /** A new game: six lives, nothing guessed wrong, not finished. */
  function NewHangman(id: int, word: string, creator: int, channel: int, topic: Option<string>): Hangman
  {
    Hangman(id, topic, word, InitialMask(word), [], StartingLives, creator, channel, false)
  }
}
