/** Hangman (backend/src/hangman.py): a channel runs at most one game at a
    time, referenced by the channel's hangman id. The random word source is
    the parameter `word` (with its optional `topic`). */
module HangmanService {
  import opened Wrappers
  import opened Text
  import opened Documents
  import opened Records
  import opened Persistence
  import opened AuthService

  /** What start and guess return: the mask, the lives and the wrong
      letters. */
  datatype GameView = GameView(guesses: seq<Option<string>>, lives: int, incorrectGuesses: seq<string>)

  /** What details returns: the same, and the game's id. */
  datatype GameDetails = GameDetails(guesses: seq<Option<string>>, lives: int, incorrectGuesses: seq<string>, hangmanId: int)

  function View(g: Hangman): GameView
  {
    GameView(g.guesses, g.lives, g.incorrectGuesses)
  }

  /* ---- make_guess ---- */

  /** The mask after a correct guess: every position whose character,
      lower-cased, equals the lower-cased guess shows the lower-cased
      guess; the others keep what they showed. */
  function Reveal(word: string, guesses: seq<Option<string>>, letter: string): (r: seq<Option<string>>)
    ensures |r| == |guesses|
  {
    seq(|guesses|, i requires 0 <= i < |guesses| =>
      if i < |word| && Lower([word[i]]) == Lower(letter) then Some(Lower(letter)) else guesses[i])
  }

  /** The end-of-guess check: the game is finished when no position is
      hidden or no lives are left. */
  function Settle(g: Hangman): (r: Hangman)
    ensures r == g.(finished := r.finished)
    ensures r.finished <==> g.finished || None !in g.guesses || g.lives == 0
  {
    if None !in g.guesses || g.lives == 0 then g.(finished := true) else g
  }

  /** make_guess on a stored game: None when it returns early without
      writing (game over, letter already wrong, letter already shown),
      otherwise the game it writes back. The substring test is made
      against the word as stored, not lower-cased. */
  function ApplyGuess(g: Hangman, letter: string): Option<Hangman>
  {
    if g.lives <= 0 || g.finished then None
    else
      var l := Lower(letter);
      if l in g.incorrectGuesses then None
      else if Contains(g.word, l) then
        if Some(l) in g.guesses then None
        else Some(Settle(g.(guesses := Reveal(g.word, g.guesses, letter))))
      else Some(Settle(g.(incorrectGuesses := g.incorrectGuesses + [l], lives := g.lives - 1)))
  }

  /** make_guess: a missing game faults; an early return writes nothing and
      returns the game as stored. */
  function MakeGuessSpec(w: World, gid: int, letter: string): Outcome<Hangman>
  {
    match Find(w.hangmen, gid)
    case None => Outcome(w, Err(Fault))
    case Some(g) =>
      match ApplyGuess(g, letter)
      case None => Outcome(w, Ok(g))
      case Some(g') => Outcome(PutHangman(w, g'), Ok(g'))
  }

  method MakeGuess(s: Persistence.Store, gid: int, letter: string) returns (r: Result<Hangman>)
    modifies s
    requires s.Valid()
    ensures s.Valid()
    ensures Outcome(s.Snapshot(), r) == MakeGuessSpec(old(s.Snapshot()), gid, letter)
  {
    var game := s.GetHangman(gid);
    if game.None? {
      return Err(Fault);
    }
    var h := game.value;
    if h.lives <= 0 || h.finished {
      return Ok(h);
    }
    var l := Lower(letter);
    if l in h.incorrectGuesses {
      return Ok(h);
    }
    if Contains(h.word, l) {
      if Some(l) in h.guesses {
        return Ok(h);
      }
      var guesses := h.guesses;
      var i := 0;
      while i < |h.word|
        invariant 0 <= i <= |h.word| && |guesses| == |h.guesses|
        invariant forall j :: 0 <= j < |guesses| ==>
          guesses[j] == if j < i && j < |h.word| && Lower([h.word[j]]) == l then Some(l) else h.guesses[j]
      {
        if i < |guesses| && Lower([h.word[i]]) == l {
          guesses := guesses[i := Some(l)];
        }
        i := i + 1;
      }
      assert guesses == Reveal(h.word, h.guesses, letter);
      h := h.(guesses := guesses);
    } else {
      h := h.(incorrectGuesses := h.incorrectGuesses + [l], lives := h.lives - 1);
    }
    if None !in h.guesses || h.lives == 0 {
      h := h.(finished := true);
    }
    var _ := s.UpdateHangman(gid, h);
    r := Ok(h);
  }

  /** A finished game, or one without lives, ignores every guess. */
  lemma GuessWhenOver(w: World, gid: int, letter: string)
    requires Find(w.hangmen, gid).Some?
    requires Find(w.hangmen, gid).value.finished || Find(w.hangmen, gid).value.lives <= 0
    ensures MakeGuessSpec(w, gid, letter) == Outcome(w, Ok(Find(w.hangmen, gid).value))
  {
  }

  /** What one guess does to a running game: a wrong letter costs exactly
      one life and is recorded; a right letter keeps the lives and the
      wrong letters and reveals; the word, the creator and the channel
      never change; lives never drop below zero; and the game is finished
      exactly when nothing is hidden or no lives are left. */
  lemma GuessEffect(g: Hangman, letter: string)
    requires 0 <= g.lives && ApplyGuess(g, letter).Some?
    ensures var g' := ApplyGuess(g, letter).value;
      var l := Lower(letter);
      && !g.finished && 0 < g.lives && l !in g.incorrectGuesses
      && 0 <= g'.lives
      && g'.word == g.word && g'.hangmanId == g.hangmanId && g'.channelId == g.channelId && g'.creatorId == g.creatorId
      && |g'.guesses| == |g.guesses|
      && (g'.finished <==> None !in g'.guesses || g'.lives == 0)
      && (Contains(g.word, l) ==>
            g'.lives == g.lives && g'.incorrectGuesses == g.incorrectGuesses
            && g'.guesses == Reveal(g.word, g.guesses, letter))
      && (!Contains(g.word, l) ==>
            g'.lives == g.lives - 1 && g'.incorrectGuesses == g.incorrectGuesses + [l]
            && g'.guesses == g.guesses)
  {
  }

  /** A revealed position keeps showing something: a guess only ever turns
      hidden positions into shown ones. */
  lemma RevealOnlyShows(word: string, guesses: seq<Option<string>>, letter: string)
    ensures forall i :: 0 <= i < |guesses| && guesses[i].Some? ==> Reveal(word, guesses, letter)[i].Some?
    ensures forall i :: 0 <= i < |guesses| && Reveal(word, guesses, letter)[i] == None ==> guesses[i] == None
  {
  }

  /** A one-letter guess that the substring test finds in the word shows
      that letter at some position of a mask as long as the word. */
  lemma {:induction false} RevealShowsLetter(word: string, guesses: seq<Option<string>>, letter: string)
    requires |letter| == 1 && |guesses| == |word| && Contains(word, Lower(letter))
    ensures Some(Lower(letter)) in Reveal(word, guesses, letter)
  {
    var l := Lower(letter);
    assert l == [l[0]];
    ContainsChar(word, l[0]);
    var i :| 0 <= i < |word| && word[i] == l[0];
    LowerIdempotent(letter);
    assert Lower([word[i]]) == [LowerChar(word[i])];
    assert Lower(l) == [LowerChar(l[0])];
    assert Reveal(word, guesses, letter)[i] == Some(l);
  }

  /** Guessing the same single letter twice: the second guess writes
      nothing, whether the first was right or wrong. */
  lemma RepeatGuessIsNoop(g: Hangman, letter: string)
    requires |letter| == 1 && |g.guesses| == |g.word| && ApplyGuess(g, letter).Some?
    ensures ApplyGuess(ApplyGuess(g, letter).value, letter) == None
  {
    var g' := ApplyGuess(g, letter).value;
    if Contains(g.word, Lower(letter)) {
      RevealShowsLetter(g.word, g.guesses, letter);
    }
  }

  /** Guesses keep a game's mask as long as its word, the shape every new
      game has. */
  lemma GuessKeepsShape(g: Hangman, letter: string)
    requires |g.guesses| == |g.word| && ApplyGuess(g, letter).Some?
    ensures |ApplyGuess(g, letter).value.guesses| == |ApplyGuess(g, letter).value.word|
  {
  }

  lemma NewGameShape(id: int, word: string, creator: int, channel: int, topic: Option<string>)
    ensures var g := NewHangman(id, word, creator, channel, topic);
      && |g.guesses| == |g.word| && g.lives == StartingLives && !g.finished && g.incorrectGuesses == []
      && (forall i :: 0 <= i < |word| ==> (g.guesses[i] == None <==> IsAlpha(word[i])))
  {
  }

  /** The substring test looks at the word as stored, so an upper-case
      letter in the word is not found by its own guess: guessing "a"
      against the word "A" costs a life, although the reveal would have
      matched it. */
  lemma CaseSensitiveMatch()
    ensures var g := NewHangman(1, "A", 1, 1, None);
      && Lower([g.word[0]]) == Lower("a")
      && ApplyGuess(g, "a") == Some(g.(incorrectGuesses := ["a"], lives := StartingLives - 1))
  {
    var g := NewHangman(1, "A", 1, 1, None);
    assert LowerChar('A') == 'a' && LowerChar('a') == 'a';
    assert Lower("a") == "a";
    assert Lower("A") == "a";
    assert InitialMask("A") == [None] by {
      assert InitialMask("A"[1..]) == [];
    }
    assert !IsPrefix("a", "A");
    assert !Contains("", "a");
    assert !Contains("A", "a");
    var g1 := g.(incorrectGuesses := ["a"], lives := StartingLives - 1);
    assert g.incorrectGuesses + [Lower("a")] == ["a"];
    assert None in g1.guesses;
    assert Settle(g1) == g1;
  }

  /* ---- the handlers ---- */

  /** hangman_start: token (AccessError), channel (InputError), membership
      (AccessError), a game already referenced (InputError); then a new
      game is stored and the channel refers to it. */
  function HangmanStartSpec(w: World, caller: int, cid: int, word: string, topic: Option<string>): Outcome<GameView>
  {
    match TokenValid(w, caller)
    case Err(e) => Outcome(w, Err(e))
    case Ok(valid) =>
      if !valid then Outcome(w, Err(AccessError))
      else
        match Find(w.channels, cid)
        case None => Outcome(w, Err(InputError))
        case Some(c) =>
          if caller !in c.memberIds then Outcome(w, Err(AccessError))
          else if c.hangmanId.Some? then Outcome(w, Err(InputError))
          else
            var gid := NextId(w.hangmen);
            var g := NewHangman(gid, word, caller, cid, topic);
            var w1 := w.(hangmen := Insert(w.hangmen, g));
            Outcome(PutChannel(w1, c.(hangmanId := Some(gid))), Ok(View(g)))
  }

  method HangmanStart(s: Persistence.Store, caller: int, cid: int, word: string, topic: Option<string>)
    returns (r: Result<GameView>)
    modifies s
    requires s.Valid()
    ensures s.Valid()
    ensures Outcome(s.Snapshot(), r) == HangmanStartSpec(old(s.Snapshot()), caller, cid, word, topic)
  {
    var valid := CheckValidToken(s, caller);
    if valid.Err? {
      return Err(valid.error);
    }
    if !valid.value {
      return Err(AccessError);
    }
    var channel := s.GetChannel(cid);
    if channel.None? {
      return Err(InputError);
    }
    if caller !in channel.value.memberIds {
      return Err(AccessError);
    }
    if channel.value.hangmanId.Some? {
      return Err(InputError);
    }
    ghost var h0 := s.hangmen;
    var gid := s.CreateHangman(word, caller, cid, topic);
    InsertSpec(h0, HangmanKey, NewHangman(gid, word, caller, cid, topic));
    var _ := s.UpdateChannel(cid, channel.value.(hangmanId := Some(gid)));
    var game := s.GetHangman(gid);
    r := Ok(View(game.value));
  }

  /** hangman_active: token (AccessError), channel (InputError), membership
      (AccessError); whether the channel refers to a game (Python's truth
      value of the id, false for no id and for id 0). */
  function HangmanActiveSpec(w: World, caller: int, cid: int): Result<bool>
  {
    match TokenValid(w, caller)
    case Err(e) => Err(e)
    case Ok(valid) =>
      if !valid then Err(AccessError)
      else
        match Find(w.channels, cid)
        case None => Err(InputError)
        case Some(c) =>
          if caller !in c.memberIds then Err(AccessError)
          else Ok(c.hangmanId.Some? && c.hangmanId.value != 0)
  }

  method HangmanActive(s: Persistence.Store, caller: int, cid: int) returns (r: Result<bool>)
    requires s.Valid()
    ensures r == HangmanActiveSpec(s.Snapshot(), caller, cid)
  {
    var valid := CheckValidToken(s, caller);
    if valid.Err? {
      return Err(valid.error);
    }
    if !valid.value {
      return Err(AccessError);
    }
    var channel := s.GetChannel(cid);
    if channel.None? {
      return Err(InputError);
    }
    if caller !in channel.value.memberIds {
      return Err(AccessError);
    }
    r := Ok(channel.value.hangmanId.Some? && channel.value.hangmanId.value != 0);
  }

  /** A successful start stores a fresh game with six lives and the word's
      initial mask, returns its view, and makes the channel's game active;
      a second start in that channel is refused. */
  lemma HangmanStartSuccess(w: World, caller: int, cid: int, word: string, topic: Option<string>)
    requires WorldValid(w) && HangmanStartSpec(w, caller, cid, word, topic).result.Ok?
    ensures var o := HangmanStartSpec(w, caller, cid, word, topic);
      var gid := NextId(w.hangmen);
      && WorldValid(o.world)
      && gid !in w.hangmen.ids
      && o.result == Ok(GameView(InitialMask(word), StartingLives, []))
      && Find(o.world.hangmen, gid) == Some(NewHangman(gid, word, caller, cid, topic))
      && Find(o.world.channels, cid) == Some(Find(w.channels, cid).value.(hangmanId := Some(gid)))
      && HangmanActiveSpec(o.world, caller, cid) == Ok(true)
      && HangmanStartSpec(o.world, caller, cid, word, topic) == Outcome(o.world, Err(InputError))
  {
    var c := Find(w.channels, cid).value;
    FindSpec(w.channels, ChannelKey, cid);
    var gid := NextId(w.hangmen);
    InsertSpec(w.hangmen, HangmanKey, NewHangman(gid, word, caller, cid, topic));
    var w1 := w.(hangmen := Insert(w.hangmen, NewHangman(gid, word, caller, cid, topic)));
    ReplaceSpec(w1.channels, ChannelKey, cid, c.(hangmanId := Some(gid)));
  }

  /** hangman_details: token (AccessError), channel (InputError), membership
      (AccessError), no game referenced (InputError), a missing game
      faults; a finished game is dropped from the channel. */
  function HangmanDetailsSpec(w: World, caller: int, cid: int): Outcome<GameDetails>
  {
    match TokenValid(w, caller)
    case Err(e) => Outcome(w, Err(e))
    case Ok(valid) =>
      if !valid then Outcome(w, Err(AccessError))
      else
        match Find(w.channels, cid)
        case None => Outcome(w, Err(InputError))
        case Some(c) =>
          if caller !in c.memberIds then Outcome(w, Err(AccessError))
          else
            match c.hangmanId
            case None => Outcome(w, Err(InputError))
            case Some(gid) =>
              match Find(w.hangmen, gid)
              case None => Outcome(w, Err(Fault))
              case Some(g) =>
                var w' := if g.finished then PutChannel(w, c.(hangmanId := None)) else w;
                Outcome(w', Ok(GameDetails(g.guesses, g.lives, g.incorrectGuesses, g.hangmanId)))
  }

  method HangmanDetails(s: Persistence.Store, caller: int, cid: int) returns (r: Result<GameDetails>)
    modifies s
    requires s.Valid()
    ensures s.Valid()
    ensures Outcome(s.Snapshot(), r) == HangmanDetailsSpec(old(s.Snapshot()), caller, cid)
  {
    var valid := CheckValidToken(s, caller);
    if valid.Err? {
      return Err(valid.error);
    }
    if !valid.value {
      return Err(AccessError);
    }
    var channel := s.GetChannel(cid);
    if channel.None? {
      return Err(InputError);
    }
    if caller !in channel.value.memberIds {
      return Err(AccessError);
    }
    if channel.value.hangmanId.None? {
      return Err(InputError);
    }
    var game := s.GetHangman(channel.value.hangmanId.value);
    if game.None? {
      return Err(Fault);
    }
    if game.value.finished {
      var _ := s.UpdateChannel(cid, channel.value.(hangmanId := None));
    }
    r := Ok(GameDetails(game.value.guesses, game.value.lives, game.value.incorrectGuesses, game.value.hangmanId));
  }

  /** hangman_guess: token (AccessError), channel (InputError), a guess of
      more than one character (InputError), no game referenced
      (InputError), membership (AccessError); then make_guess, and a
      finished game is dropped from the channel. */
  function HangmanGuessSpec(w: World, caller: int, cid: int, guess: string): Outcome<GameView>
  {
    match TokenValid(w, caller)
    case Err(e) => Outcome(w, Err(e))
    case Ok(valid) =>
      if !valid then Outcome(w, Err(AccessError))
      else
        match Find(w.channels, cid)
        case None => Outcome(w, Err(InputError))
        case Some(c) =>
          if |guess| > 1 then Outcome(w, Err(InputError))
          else
            match c.hangmanId
            case None => Outcome(w, Err(InputError))
            case Some(gid) =>
              if caller !in c.memberIds then Outcome(w, Err(AccessError))
              else
                var o := MakeGuessSpec(w, gid, guess);
                match o.result
                case Err(e) => Outcome(o.world, Err(e))
                case Ok(g) =>
                  var w' := if g.finished then PutChannel(o.world, c.(hangmanId := None)) else o.world;
                  Outcome(w', Ok(View(g)))
  }

  method HangmanGuess(s: Persistence.Store, caller: int, cid: int, guess: string) returns (r: Result<GameView>)
    modifies s
    requires s.Valid()
    ensures s.Valid()
    ensures Outcome(s.Snapshot(), r) == HangmanGuessSpec(old(s.Snapshot()), caller, cid, guess)
  {
    var valid := CheckValidToken(s, caller);
    if valid.Err? {
      return Err(valid.error);
    }
    if !valid.value {
      return Err(AccessError);
    }
    var channel := s.GetChannel(cid);
    if channel.None? {
      return Err(InputError);
    }
    if |guess| > 1 {
      return Err(InputError);
    }
    if channel.value.hangmanId.None? {
      return Err(InputError);
    }
    if caller !in channel.value.memberIds {
      return Err(AccessError);
    }
    var g := MakeGuess(s, channel.value.hangmanId.value, guess);
    if g.Err? {
      return Err(g.error);
    }
    if g.value.finished {
      var _ := s.UpdateChannel(cid, channel.value.(hangmanId := None));
    }
    r := Ok(View(g.value));
  }

  /** A guess that ends the game leaves the channel without a game: it is
      no longer active, so a new game may start there. */
  lemma FinishedGameIsDropped(w: World, caller: int, cid: int, guess: string)
    requires WorldValid(w)
    requires HangmanGuessSpec(w, caller, cid, guess).result.Ok?
    requires Find(w.channels, cid).Some? && Find(w.channels, cid).value.hangmanId.Some?
    requires var gid := Find(w.channels, cid).value.hangmanId.value;
      && Find(w.hangmen, gid).Some?
      && ApplyGuess(Find(w.hangmen, gid).value, guess).Some?
      && ApplyGuess(Find(w.hangmen, gid).value, guess).value.finished
    ensures var w' := HangmanGuessSpec(w, caller, cid, guess).world;
      && Find(w'.channels, cid).Some?
      && Find(w'.channels, cid).value.hangmanId == None
      && HangmanActiveSpec(w', caller, cid) == Ok(false)
  {
    var c := Find(w.channels, cid).value;
    FindSpec(w.channels, ChannelKey, cid);
    var gid := c.hangmanId.value;
    var o := MakeGuessSpec(w, gid, guess);
    var g := Find(w.hangmen, gid).value;
    FindSpec(w.hangmen, HangmanKey, gid);
    if ApplyGuess(g, guess).Some? {
      ReplaceSpec(w.hangmen, HangmanKey, gid, ApplyGuess(g, guess).value);
    }
    ReplaceSpec(o.world.channels, ChannelKey, cid, c.(hangmanId := None));
  }

  /** Details of a finished game drop it from the channel, so the next
      details call is an InputError. */
  lemma DetailsDropsFinished(w: World, caller: int, cid: int)
    requires WorldValid(w)
    requires HangmanDetailsSpec(w, caller, cid).result.Ok?
    requires Find(w.hangmen, Find(w.channels, cid).value.hangmanId.value).value.finished
    ensures var w' := HangmanDetailsSpec(w, caller, cid).world;
      HangmanDetailsSpec(w', caller, cid) == Outcome(w', Err(InputError))
  {
    var c := Find(w.channels, cid).value;
    FindSpec(w.channels, ChannelKey, cid);
    ReplaceSpec(w.channels, ChannelKey, cid, c.(hangmanId := None));
  }

  /** hangman_answer: no token check; channel (InputError), membership
      (AccessError); then the word of the game named by the caller, which
      need not be this channel's game (a missing one faults). */
  function HangmanAnswerSpec(w: World, caller: int, cid: int, gid: int): Result<string>
  {
    match Find(w.channels, cid)
    case None => Err(InputError)
    case Some(c) =>
      if caller !in c.memberIds then Err(AccessError)
      else
        match Find(w.hangmen, gid)
        case None => Err(Fault)
        case Some(g) => Ok(g.word)
  }

  method HangmanAnswer(s: Persistence.Store, caller: int, cid: int, gid: int) returns (r: Result<string>)
    requires s.Valid()
    ensures r == HangmanAnswerSpec(s.Snapshot(), caller, cid, gid)
  {
    var channel := s.GetChannel(cid);
    if channel.None? {
      return Err(InputError);
    }
    if caller !in channel.value.memberIds {
      return Err(AccessError);
    }
    var game := s.GetHangman(gid);
    if game.None? {
      return Err(Fault);
    }
    r := Ok(game.value.word);
  }

  /** The answer is given to any member of any channel, for any stored
      game, whatever its lives and whether or not it is finished. */
  lemma AnswerIsUnguarded(w: World, caller: int, cid: int, gid: int)
    requires WorldValid(w)
    requires Find(w.channels, cid).Some? && caller in Find(w.channels, cid).value.memberIds
    requires gid in w.hangmen.ids
    ensures HangmanAnswerSpec(w, caller, cid, gid) == Ok(Find(w.hangmen, gid).value.word)
    ensures Find(w.hangmen, gid).value.hangmanId == gid
  {
    FindSpec(w.hangmen, HangmanKey, gid);
  }
}
