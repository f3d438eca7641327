# Slackr backend core in Dafny

This project models the backend of Slackr, a small Slack-like workplace chat
server, and proves properties of that model. The backend keeps all of its
state in five whole-collection documents: channels, users, messages (with a
queue of unsent message ids), standups and hangman games. Every request
handler checks its inputs in a fixed order and raises `InputError` or
`AccessError` on the first failure. Otherwise it reads records, changes them
and writes them back.

The model keeps that shape.

- `Documents.Doc<R>` is one collection document: the id counter, the list of
  living ids and the list of records. `Documents.Valid` is its invariant: the
  ids are distinct, each record carries the id at its position, and every id
  is between 1 and the counter.
- `Persistence.Store` is one class holding the five documents and the queue.
  Its create, get, update and delete methods reassign those fields.
  `World` is a value snapshot of the store.
- Every handler is a method on the store with `modifies s`. It is proved equal
  to a specification function on worlds (`...Spec`) that returns the new
  world and the result. The source's properties are lemmas about those
  functions.
- The loops of the source are loops in the methods:
  - the walk over the unsent queue, and the standup-closing walk over the channels;
  - the uniqueness scans for emails and handles;
  - the list, search and details filters;
  - the cascade of user removal over the channels.
- A token is the caller's user id. `check_valid_token` is the user's
  logged-in flag. A token whose user does not exist is the source's uncaught
  `TypeError`, modelled as `Fault`.
- `Fault` stands for any uncaught Python exception. The source saves each
  step to disk as it goes, so writes made before a fault are kept.
- A handler gets one integer `now` where the source reads the clock. The
  email regular expression is a boolean parameter `emailOk`. The hangman word
  is an input to `hangman_start`.
- `get_all_*_ids` is the store's id list read directly.

Behaviour of the source that is kept as written:
- Owners are not kept a subset of members.
- New reaction entries take the user id as their react id.
- `message_edit` never deletes a message.
- `message_sendlater` accepts past times.
- The unsent queue is delivered in queue order.
- `make_guess` matches case-sensitively on the word side.
- `channel_messages` checks `start` before the sweep.
- `search` computes the joined channels and does not use them.
- `workplace_reset` keeps the hangman games.
- Removing a queued message leaves a dangling id in the queue, and then every
  later sweep faults.

## Model

| member | source | states |
|---|---|---|
| Documents.EmptyValid | backend/src/abstractions.py:26-38 | a reset document (counter 0, no ids, no records) is valid and finds nothing |
| Documents.FindAt | backend/src/abstractions.py:142-155 | the record at position i is the one get returns for the id at position i |
| Documents.FindSpec | backend/src/abstractions.py:142-155 | get returns a record exactly when the id is in the id list, and that record carries the id |
| Documents.InsertSpec | backend/src/abstractions.py:102-139 | create hands out latest_id + 1, which no living record has, keeps the document valid, stores it as the new counter and changes no other id's record |
| Documents.ReplaceSpec | backend/src/abstractions.py:158-186 | an update under the record's own id keeps the document valid, ids and counter unchanged, and changes only that id's record; an absent id changes nothing |
| Documents.RemoveValid | backend/src/abstractions.py:189-218 | delete keeps the document valid and its id list becomes the old one with the id removed |
| Documents.RemoveSpec | backend/src/abstractions.py:189-218 | delete keeps the counter, so ids are never reused; an absent id changes nothing; afterwards the id finds nothing and others are unchanged |
| Documents.ReplaceRestore | backend/src/abstractions.py:158-186 | writing the old record back after an update restores the document |
| Documents.Get | backend/src/abstractions.py:142-155 | the loop over the records returns exactly what Find describes |
| Documents.Update | backend/src/abstractions.py:158-186 | DataError exactly when the key differs from the record's own id (nothing changes then); otherwise the matching record is replaced |
| Documents.Delete | backend/src/abstractions.py:189-218 | reports whether the id was living and removes it and its record |
| Persistence.QueueSpec | backend/src/abstractions.py:459-494 | enqueueing and dequeueing keep the unsent queue duplicate-free, enqueue adds exactly the id and dequeue removes exactly it |
| Persistence.PutValid | backend/src/abstractions.py:158-186 | writing back any record keeps the whole world valid |
| Persistence.Store.constructor | backend/src/abstractions.py:26-99 | the setup of all five documents: every document empty, counters at 0, queue empty |
| Persistence.Store.ResetChannels | backend/src/abstractions.py:26-38 | the channel document becomes empty; nothing else changes |
| Persistence.Store.ResetUsers | backend/src/abstractions.py:41-53 | the user document becomes empty; nothing else changes |
| Persistence.Store.ResetMessages | backend/src/abstractions.py:56-69 | the message document and the unsent queue become empty |
| Persistence.Store.ResetStandups | backend/src/abstractions.py:72-84 | the standup document becomes empty |
| Persistence.Store.ResetHangmen | backend/src/abstractions.py:87-99 | the hangman document becomes empty |
| Persistence.Store.CreateChannel | backend/src/abstractions.py:102-139 | a fresh id (latest + 1) with the initial channel record: creator as sole owner and member, count 0, no standup, no game |
| Persistence.Store.GetChannel | backend/src/abstractions.py:142-155 | None exactly for an id not in the list, otherwise the channel with that id |
| Persistence.Store.UpdateChannel | backend/src/abstractions.py:158-186 | DataError on an id mismatch, otherwise the channel is replaced in place |
| Persistence.Store.DeleteChannel | backend/src/abstractions.py:189-218 | reports whether the id was living; removes id and record and keeps the counter |
| Persistence.Store.CreateUser | backend/src/abstractions.py:221-259 | a fresh id with the initial user record |
| Persistence.Store.GetUser | backend/src/abstractions.py:262-275 | None exactly for an absent id, otherwise the user with that id |
| Persistence.Store.UpdateUser | backend/src/abstractions.py:278-306 | DataError on an id mismatch, otherwise the user is replaced |
| Persistence.Store.DeleteUser | backend/src/abstractions.py:309-338 | reports whether the id was living; removes id and record |
| Persistence.Store.CreateMessage | backend/src/abstractions.py:341-377 | a fresh id with a new message stamped with now |
| Persistence.Store.GetMessage | backend/src/abstractions.py:380-393 | None exactly for an absent id, otherwise the message with that id |
| Persistence.Store.UpdateMessage | backend/src/abstractions.py:396-424 | DataError on an id mismatch, otherwise the message is replaced |
| Persistence.Store.DeleteMessage | backend/src/abstractions.py:427-456 | reports whether the id was living; removes id and record |
| Persistence.Store.CreateUnsentMessageId | backend/src/abstractions.py:459-475 | false exactly when the id is already queued; otherwise it is appended |
| Persistence.Store.DeleteUnsentMessageId | backend/src/abstractions.py:478-494 | false exactly when the id is not queued; otherwise it is removed |
| Persistence.Store.CreateStandup | backend/src/abstractions.py:497-540 | a fresh id, and the new snapshot inserts NewStandup under it; nothing else changes |
| Persistence.NewStandupStored | backend/src/abstractions.py:509-530 | the record stored under the new id has the given window, creator and channel, no buffer message, and is in progress exactly when start <= now <= finish; every other standup is unchanged |
| Persistence.Store.GetStandup | backend/src/abstractions.py:543-556 | None exactly for an absent id |
| Persistence.Store.UpdateStandup | backend/src/abstractions.py:559-587 | DataError on an id mismatch, otherwise the standup is replaced |
| Persistence.Store.DeleteStandup | backend/src/abstractions.py:590-619 | reports whether the id was living; removes id and record |
| Persistence.Store.CreateHangman | backend/src/abstractions.py:622-660 | a fresh id with a new game |
| Persistence.Store.GetHangman | backend/src/abstractions.py:663-676 | None exactly for an absent id |
| Persistence.Store.UpdateHangman | backend/src/abstractions.py:679-707 | DataError on an id mismatch, otherwise the game is replaced |
| Persistence.Store.DeleteHangman | backend/src/abstractions.py:710-742 | reports whether the id was living; removes id and record |
| Records.InitialMask | backend/src/abstractions.py:638-648 | the mask has the word's length, None exactly at alphabetic characters and the character itself elsewhere |
| Seqs.RemoveFirst | backend/src/channel.py:155 | Python's list.remove: one element shorter, the same multiset less one occurrence of x |
| Seqs.RemoveFirstSpec | backend/src/channel.py:155 | list.remove cuts out the first occurrence of x and keeps every other element in order |
| Seqs.RemoveFirstNoDup | backend/src/abstractions.py:205-213 | removing from a duplicate-free list removes the element entirely and keeps the list duplicate-free |
| Seqs.Reverse | backend/src/channel.py:112 | position k of the result is position n-1-k of the input |
| Text.Lower | backend/src/other.py:34 | str.lower on ASCII: same length, each character lowered |
| Text.LowerIdempotent | backend/src/auth.py:178-183 | lowering twice is lowering once |
| Text.ContainsEmpty | backend/src/other.py:34 | the empty string is a substring of every string |
| Text.ContainsChar | backend/src/hangman.py:197 | for a one-character needle the substring test is membership |
| Text.NatToStringInjective | backend/src/auth.py:184-191 | different numbers print differently |
| AuthService.TokenValidSpec | backend/src/auth.py:150-160 | the check faults exactly for an unknown user, and is true exactly when the user is logged in |
| AuthService.CheckValidToken | backend/src/auth.py:150-160 | the method returns the token's validity as specified |
| AuthService.HandleBase | backend/src/auth.py:178-183 | the base handle has at most 20 characters |
| AuthService.HandleBaseSpec | backend/src/auth.py:178-183 | the base is the first min(20, n) characters of lower(first + "." + last), already lower case |
| AuthService.FirstFreeNumber | backend/src/auth.py:184-191 | the least k >= n whose numbered handle is free |
| AuthService.CreateHandleSpec | backend/src/auth.py:174-192 | the generated handle is never held; a free base is used as is; otherwise it is base + str(k) for the least k >= 1 that is free |
| AuthService.CheckUniqueHandle | backend/src/auth.py:195-204 | the scan returns true exactly when no stored user holds the handle |
| AuthService.FirstWithEmail | backend/src/auth.py:43-49 | the result is a user with the email; None exactly when no user has it |
| AuthService.FindUserByEmail | backend/src/auth.py:43-49 | the login loop finds the first user with the email |
| AuthService.AuthLogin | backend/src/auth.py:33-75 | the method's new store and result are LoginSpec's |
| AuthService.LoginValidates | backend/src/auth.py:33-75 | a successful login logs in exactly the user with that email and password and returns their id |
| AuthService.CheckEmailTaken | backend/src/auth.py:117-124 | the scan returns true exactly when a stored user has the email |
| AuthService.AuthRegister | backend/src/auth.py:98-147 | the method's new store and result are RegisterSpec's |
| AuthService.RegisterErrors | backend/src/auth.py:104-129 | registration fails with InputError, changing nothing, exactly for a bad name length, a refused or taken email, or a password shorter than 6 |
| AuthService.RegisterLogin | backend/src/auth.py:132-133 | the login inside registration finds the user just created |
| AuthService.HandlesGrow | backend/src/auth.py:186-192 | a user list extending another holds all its handles |
| AuthService.RegisterSuccess | backend/src/auth.py:131-142 | a new user under a fresh id, logged in, with a handle no other user holds, of permission 1 exactly when it is the first user |
| AuthService.FirstWithEmailLast | backend/src/auth.py:43-49 | when only the last user has the email, the search finds that one |
| AuthService.AuthLogout | backend/src/auth.py:78-95 | the method's new store and result are LogoutSpec's |
| AuthService.LogoutInvalidates | backend/src/auth.py:84-89 | logout returns true exactly for a valid token, and afterwards the token is invalid |
| Delivery.CloseDueStandup | backend/src/message.py:324-337 | one iteration of the standup-closing loop, as CloseStandup describes |
| Delivery.MarkStandupsAsCompleted | backend/src/message.py:320-337 | the loop over all channels, as MarkStandups describes |
| Delivery.SendUnsentMessage | backend/src/message.py:302-317 | close finished standups, then deliver one message, as SendUnsent describes |
| Delivery.CheckUnsentMessages | backend/src/message.py:287-299 | the walk over the queue, as Sweep describes |
| Delivery.CloseStandupFrame | backend/src/message.py:324-337 | closing one channel's standup keeps the world valid, touches only standup fields, and leaves other channels unchanged |
| Delivery.MarkFromFrame | backend/src/message.py:320-337 | the whole closing loop keeps the world valid and touches only standup fields |
| Delivery.SendUnsentFrame | backend/src/message.py:302-317 | a delivery changes no user, message or game, and keeps the world valid |
| Delivery.SweepFrame | backend/src/message.py:287-299 | a whole sweep changes no user, message or game |
| Delivery.AppendedTrans | backend/src/message.py:312-313 | appending d1 and then d2 to a channel's messages is appending d1 + d2 |
| Delivery.SendUnsentChannel | backend/src/message.py:309-313 | delivering one message appends it, with count + 1, to its own channel and to no other |
| Delivery.SendUnsentQueue | backend/src/message.py:315 | delivering a message takes it off the queue |
| Delivery.SweepChannel | backend/src/message.py:292-299 | over a walk, each channel receives exactly its due ids, in queue order |
| Delivery.SweepUnfold | backend/src/message.py:292-299 | how one step of the walk unfolds when the walk succeeds |
| Delivery.SendUnsentAfterKept | backend/src/message.py:302-317 | a delivered head leaves the queue and the kept prefix stays |
| Delivery.SweepQueue | backend/src/message.py:292-299 | over a walk of the queue's tail, due ids leave the queue and the rest stay in order |
| Delivery.SweepDangling | backend/src/message.py:295-297 | a queued id with no message makes the sweep fault |
| Delivery.SweepIdle | backend/src/message.py:292-299 | a walk over existing, not yet due ids changes nothing |
| Delivery.NotDueFuture | backend/src/message.py:297 | what stays queued is exactly the queued ids that are not due |
| Delivery.SweepSpec | backend/src/message.py:287-299 | after a sweep the queue is exactly the ids not due, in order; users, messages, games and channel ids are untouched |
| Delivery.SweepIdempotent | backend/src/message.py:287-299 | sweeping again at the same time changes nothing |
| Delivery.SweepKeepsCounts | backend/src/message.py:312-313 | message_count stays equal to the length of message_ids across a sweep |
| Delivery.CloseStandupSpec | backend/src/message.py:327-337 | one closing step clears the channel's standup fields exactly when its standup has finished; that standup record is then marked as no longer in progress, and every other standup record is unchanged |
| Delivery.ClosedFrame | backend/src/message.py:327-337 | whether a channel closes depends only on what closing leaves alone |
| Delivery.MarkFromSpec | backend/src/message.py:320-337 | after the loop each listed channel is closed exactly when due, and other channels are unchanged |
| Delivery.MarkFromRecords | backend/src/message.py:320-334 | after the loop a standup record is marked as no longer in progress exactly when some listed channel had it as its due standup; otherwise it is unchanged |
| Delivery.AnyDueExists | backend/src/message.py:324-330 | the recursive test over the listed channels is "some listed channel has this as its due standup" |
| Delivery.MarkStandupsSpec | backend/src/message.py:320-337 | every channel whose standup has finished by now has no standup running afterwards and the others are unchanged; each standup record is marked as no longer in progress exactly when some channel had it as its due standup, and is otherwise unchanged |
| Delivery.SweepCountsAgree | backend/src/message.py:312-313 | the count invariant holds for every channel after a sweep |
| Delivery.DueInContains | backend/src/message.py:293-299 | a queued, due message of a channel is among that channel's deliveries |
| Delivery.SweepDelivers | backend/src/message.py:287-317 | a queued message whose time has come is in its channel's list and off the queue after the sweep |
| MessageService.MessageSend | backend/src/message.py:12-44 | the method's new store and result are SendSpec's |
| MessageService.SendErrors | backend/src/message.py:19-35 | an invalid token, more than 1000 characters, a failed sweep and a non-member each give their error with the world as it stood (after the sweep, for the last), so no message is created; a logged-in member with at most 1000 characters and a sweep that goes through always succeeds |
| MessageService.SendSuccess | backend/src/message.py:25-41 | success needs a valid token, at most 1000 characters and membership; the new message is stored under a fresh id and appended to the channel's list with count + 1; the queue is the swept one and the world stays valid |
| MessageService.SendKeepsCounts | backend/src/message.py:36-41 | a send keeps message_count equal to the length of message_ids in every channel |
| MessageService.MessageSendLater | backend/src/message.py:47-79 | the method's new store and result are SendLaterSpec's |
| MessageService.SendLaterSuccess | backend/src/message.py:72-76 | the message is stored with the requested time and queued; no channel changes |
| MessageService.SendLaterDelivered | backend/src/message.py:72-76 | a message sent for later reaches its channel at the first sweep at or after its time |
| MessageService.AddReactor | backend/src/message.py:110-113 | adding a reactor keeps the number of reaction entries |
| MessageService.DropReactor | backend/src/message.py:151-153 | dropping a reactor keeps the number of reaction entries |
| MessageService.MessageReact | backend/src/message.py:82-123 | the method's new store and result are ReactSpec's |
| MessageService.MessageUnreact | backend/src/message.py:126-156 | the method's new store and result are UnreactSpec's |
| MessageService.ReactTwice | backend/src/message.py:103-106 | after a react, a second react with InputError and no change |
| MessageService.DropAfterAdd | backend/src/message.py:143-154 | dropping a just-added reactor gives back the reaction list |
| MessageService.ReactUnreactRoundTrip | backend/src/message.py:82-156 | unreact undoes react when an entry with react id 1 exists |
| MessageService.ReactIdIsUserId | backend/src/message.py:117 | the first react on a message files an entry whose react id is the user's id |
| MessageService.MessagePin | backend/src/message.py:159-190 | the method's new store and result are PinSpec's with pin = true |
| MessageService.MessageUnpin | backend/src/message.py:193-222 | the method's new store and result are PinSpec's with pin = false |
| MessageService.PinSuccess | backend/src/message.py:174-188 | success exactly for a global owner who is a member, on a stored message not already in the target state; only the pinned flag changes |
| MessageService.PinRoundTrip | backend/src/message.py:159-222 | unpin undoes pin and pin undoes unpin; repeating either is an InputError |
| MessageService.MessageRemove | backend/src/message.py:225-254 | the method's new store and result are RemoveMessageSpec's |
| MessageService.RemoveMessageSuccess | backend/src/message.py:240-253 | success deletes the message, takes its id out of the channel's list and decrements the count |
| MessageService.RemoveQueuedMessage | backend/src/message.py:248-253 | removing a queued message deletes it but leaves it queued, and the next sweep faults |
| MessageService.MessageEdit | backend/src/message.py:257-284 | the method's new store and result are EditSpec's |
| MessageService.EditSuccess | backend/src/message.py:270-283 | AccessError exactly for a caller who is not a global owner, channel owner or author; success sets the content, even to empty, and the edited flag |
| StandupService.BufferLine | backend/src/standup.py:112-117 | the line is the handle, then ":    ", then the text, then a newline |
| StandupService.StandupStart | backend/src/standup.py:10-55 | the method's new store and result are StandupStartSpec's |
| StandupService.StandupStartSuccess | backend/src/standup.py:14-55 | success needs a valid token and a channel with no standup running; it stores a standup from now to now + length, marks the channel, queues an empty buffer message timed for the finish and not in the channel, returns the finish, keeps the world valid and leaves users and games alone |
| StandupService.StandupActive | backend/src/standup.py:58-78 | the method returns StandupActiveSpec's answer |
| StandupService.StartThenActive | backend/src/standup.py:21-78 | right after a start the standup is reported active with the finish time the start returned, and a second start is refused with InputError |
| StandupService.StartRefused | backend/src/standup.py:22-24 | a logged-in caller cannot start on a channel marked as running a standup, and nothing changes |
| StandupService.ActiveShows | backend/src/standup.py:69-78 | on a channel marked as running a stored standup the answer is active with that standup's finish time |
| StandupService.StandupEndsAtFinish | backend/src/message.py:327-337 | a closing pass at or after the finish time clears the channel's standup |
| StandupService.StandupDelivered | backend/src/standup.py:37-48 | a sweep at or after the finish time puts the buffer message in the channel |
| StandupService.StandupSend | backend/src/standup.py:81-119 | the method's new store and result are StandupSendSpec's |
| StandupService.StandupSendAppends | backend/src/standup.py:112-117 | a successful send appends the sender's line to the buffer and changes nothing else |
| StandupService.SendAllTranscript | backend/src/standup.py:112-117 | after N sends the buffer holds the old content followed by each line in order |
| HangmanService.Reveal | backend/src/hangman.py:197-207 | the updated mask keeps the mask's length |
| HangmanService.Settle | backend/src/hangman.py:213-216 | finished becomes true exactly when no position is hidden or no life is left; nothing else changes |
| HangmanService.MakeGuess | backend/src/hangman.py:183-219 | the method's loop over the word and its new store are MakeGuessSpec's |
| HangmanService.GuessWhenOver | backend/src/hangman.py:189-190 | a finished game or one without lives ignores every guess |
| HangmanService.GuessEffect | backend/src/hangman.py:192-216 | a wrong letter is appended lowercased once and costs one life; a right one reveals it and changes neither; lives stay >= 0 |
| HangmanService.RevealOnlyShows | backend/src/hangman.py:197-207 | a guess never hides a position again |
| HangmanService.RevealShowsLetter | backend/src/hangman.py:197-207 | a matched one-letter guess appears in the mask afterwards |
| HangmanService.RepeatGuessIsNoop | backend/src/hangman.py:192-199 | guessing the same letter again writes nothing |
| HangmanService.GuessKeepsShape | backend/src/hangman.py:197-207 | a guess keeps the mask as long as the word |
| HangmanService.NewGameShape | backend/src/abstractions.py:638-648 | a new game has 6 lives, no wrong guesses, is not finished and its mask is as long as the word |
| HangmanService.CaseSensitiveMatch | backend/src/hangman.py:197 | the test is case-sensitive on the word side: guessing "a" in "A" costs a life |
| HangmanService.HangmanStart | backend/src/hangman.py:13-43 | the method's new store and result are HangmanStartSpec's |
| HangmanService.HangmanActive | backend/src/hangman.py:46-62 | the method returns HangmanActiveSpec's answer |
| HangmanService.HangmanStartSuccess | backend/src/hangman.py:32-43 | a fresh game with 6 lives and the word's mask, referenced by the channel |
| HangmanService.HangmanDetails | backend/src/hangman.py:65-97 | the method's new store and result are HangmanDetailsSpec's |
| HangmanService.HangmanGuess | backend/src/hangman.py:100-141 | the method's new store and result are HangmanGuessSpec's |
| HangmanService.FinishedGameIsDropped | backend/src/hangman.py:130-136 | a guess that ends the game clears the channel's game |
| HangmanService.DetailsDropsFinished | backend/src/hangman.py:84-97 | details of a finished game clear the channel's game but still report it |
| HangmanService.HangmanAnswer | backend/src/hangman.py:222-242 | the method returns HangmanAnswerSpec's answer |
| HangmanService.AnswerIsUnguarded | backend/src/hangman.py:222-242 | any member of any channel gets the word of any stored game |
| ChannelService.ChannelInvite | backend/src/channel.py:12-37 | the method's new store and result are InviteSpec's |
| ChannelService.InviteSuccess | backend/src/channel.py:19-35 | success exactly for a valid token, a stored channel with the caller as member and a stored target; the target is appended to members only |
| ChannelService.ChannelLeave | backend/src/channel.py:140-159 | the method's new store and result are LeaveSpec's |
| ChannelService.LeaveKeepsOwnership | backend/src/channel.py:150-157 | success exactly for a member; one occurrence leaves the members and owners are unchanged |
| ChannelService.InviteLeaveRoundTrip | backend/src/channel.py:12-159 | an invited user who then leaves restores the channel |
| ChannelService.ChannelJoin | backend/src/channel.py:162-185 | the method's new store and result are JoinSpec's |
| ChannelService.JoinSuccess | backend/src/channel.py:172-184 | a private channel needs a global or channel owner; the caller is appended to members only |
| ChannelService.ChannelAddOwner | backend/src/channel.py:188-214 | the method's new store and result are AddOwnerSpec's |
| ChannelService.ChannelRemoveOwner | backend/src/channel.py:217-244 | the method's new store and result are RemoveOwnerSpec's |
| ChannelService.AddOwnerSuccess | backend/src/channel.py:197-212 | success exactly for a logged-in, authorised caller naming someone not yet an owner of an existing channel; the target is appended to the owners and nothing else changes |
| ChannelService.AddOwnerErrors | backend/src/channel.py:188-207 | AccessError for a logged-out caller (an unknown one faults), InputError for a missing channel, InputError for an existing owner (even from an unauthorised caller, since that check comes first), AccessError for an unauthorised caller; each leaves the world unchanged |
| ChannelService.RemoveOwnerSuccess | backend/src/channel.py:226-242 | success exactly for a logged-in, authorised caller naming a current owner of an existing channel; the target's first entry leaves the owner list, whose order is otherwise kept, and nothing else changes |
| ChannelService.RemoveOwnerErrors | backend/src/channel.py:217-238 | AccessError for a logged-out caller (an unknown one faults), InputError for a missing channel, InputError for a non-owner (even from an unauthorised caller), AccessError for an unauthorised caller; each leaves the world unchanged |
| ChannelService.AddRemoveOwnerRoundTrip | backend/src/channel.py:188-244 | adding and then removing an owner restores the channel |
| ChannelService.OwnerWithoutMembership | backend/src/channel.py:210 | addowner can make a non-member an owner |
| ChannelService.OwnersAmongSpec | backend/src/channel.py:63-67 | an entry is in the owner list exactly when it is a member entry whose user is an owner |
| ChannelService.OwnersAmongAppend | backend/src/channel.py:63-67 | the owner list of a split list is the first part's followed by the second's, and one entry is kept exactly when its user is an owner, so the owners keep member order and multiplicity |
| ChannelService.ChannelDetails | backend/src/channel.py:40-73 | the method's loops return DetailsSpec's answer |
| ChannelService.DetailsLists | backend/src/channel.py:55-73 | all members in member order with their stored names and picture, and as owners OwnersAmong of that list: the members who are owners, in member order |
| ChannelService.SliceIndex | backend/src/channel.py:109 | Python's clamping of a slice index into 0..n |
| ChannelService.PageSlice | backend/src/channel.py:103-109 | for 0 <= start the page is message_ids[start .. min(start + 50, n)) |
| ChannelService.PageAtMost | backend/src/channel.py:103-109 | a page holds at most 50 messages |
| ChannelService.MarkReactions | backend/src/channel.py:115-118 | the loop over the reactions builds ReactViews |
| ChannelService.CollectViews | backend/src/channel.py:113-127 | the loop over the page builds MessageViews, faulting on a missing message |
| ChannelService.ChannelMessages | backend/src/channel.py:76-137 | the method's new store and result are MessagesSpec's |
| ChannelService.MessagesStartCheck | backend/src/channel.py:85-93 | InputError when start exceeds the pre-sweep count, AccessError for a non-member |
| ChannelService.PageOf | backend/src/channel.py:103-136 | the page built from the slice is the right page: entry k is the caller's view of message_ids[hi - 1 - k] for hi = min(start + 50, n), with start echoed and end as the handler sets it |
| ChannelService.MessagesUnfold | backend/src/channel.py:94-137 | how a successful read unfolds: sweep, then the slice of the swept channel |
| ChannelService.MessagesPage | backend/src/channel.py:103-136 | after the sweep, the messages are the caller's views of message_ids[start .. min(start+50, n)) newest first; end is -1 when n < start + 50, else start + 50 |
| ChannelService.MessagesShowDelivered | backend/src/channel.py:96-98 | a due queued message appears on that read |
| ChannelsService.ChannelsList | backend/src/channels.py:7-45 | the method's loop returns ListSpec's answer |
| ChannelsService.ChannelsListAll | backend/src/channels.py:48-73 | the method's loop returns ListAllSpec's answer |
| ChannelsService.JoinedSpec | backend/src/channels.py:24-41 | the channels listed are exactly those where the user is an owner or member, in id order, each once |
| ChannelsService.EverythingSpec | backend/src/channels.py:59-69 | every channel is listed in id order |
| ChannelsService.ListContents | backend/src/channels.py:7-45 | channels_list lists exactly the channels the caller owns or is a member of, each once and in id order |
| ChannelsService.ListAllContents | backend/src/channels.py:48-73 | channels_listall lists every channel, the same for every valid caller |
| ChannelsService.ChannelsCreate | backend/src/channels.py:76-105 | the method's new store and result are CreateSpec's |
| ChannelsService.CreateSuccess | backend/src/channels.py:85-103 | InputError exactly for a missing, empty or over-20 name; success creates a channel, private iff not public, with the caller as sole owner and member |
| ChannelsService.CreateThenListed | backend/src/channels.py:76-105 | a channel just created is in its creator's list |
| OtherService.Search | backend/src/other.py:11-47 | the method's loop returns SearchSpec's answer |
| OtherService.HitsSpec | backend/src/other.py:30-43 | the hits are exactly the messages whose lowered content contains the lowered query, in id order |
| OtherService.SearchResults | backend/src/other.py:30-43 | a logged-in caller gets exactly the matching messages, of every channel, each once and in id order |
| OtherService.SearchEmptyQuery | backend/src/other.py:30-43 | an empty query matches every message |
| OtherService.WorkplaceReset | backend/src/other.py:50-58 | the method's new store is ResetSpec's |
| OtherService.ResetKeepsGames | backend/src/other.py:54-57 | reset empties channels, messages, queue, users and standups and keeps the games |
| OtherService.UserPermissionChange | backend/src/other.py:61-89 | the method's new store and result are PermissionSpec's |
| OtherService.PermissionSuccess | backend/src/other.py:70-88 | InputError for an unknown target or a level outside {1, 2}, AccessError for a caller without level 1; success sets only that level |
| OtherService.PermissionRoundTrip | backend/src/other.py:61-89 | setting a level back restores the world |
| OtherService.SelfDemotion | backend/src/other.py:61-89 | a global owner who demotes themself cannot then change permissions |
| OtherService.PurgeStep | backend/src/other.py:121-144 | one iteration of the cascade, as PurgeChannel describes |
| OtherService.UserRemove | backend/src/other.py:92-146 | the method's new store and result are UserRemoveSpec's |
| OtherService.PurgeChannelSpec | backend/src/other.py:121-144 | one cascade step changes only its channel, as Purged describes |
| OtherService.PurgeFromSpec | backend/src/other.py:120-144 | the cascade treats every listed channel as Purged says and leaves the rest |
| OtherService.UserRemoveSuccess | backend/src/other.py:95-146 | InputError for an unknown target or a logged-out caller and AccessError for a caller below level 1, each with nothing changed; success exactly when no channel has the target as owner but not member, and then the user is deleted and every channel is purged of them, an emptied owned channel deleted |
| OtherService.PurgedDropsUser | backend/src/other.py:123-144 | a channel where the user held at most one ownership and one membership no longer names the user afterwards |
| OtherService.RemoveOwnerNonMemberFaults | backend/src/other.py:123-127 | removing a user who owns a channel without being its member faults, as the source's list.remove does, after the user is already deleted |
| OtherService.ImageUrlParts | backend/src/other.py:149-150 | the url is base + "/static/images/" + file, and different files give different urls |
| UserService.PutOwn | backend/src/user.py:72-74 | writing back the caller's own record changes only that record |
| UserService.UserProfile | backend/src/user.py:15-43 | the method returns ProfileSpec's answer |
| UserService.ProfileShows | backend/src/user.py:28-43 | a logged-in caller sees any stored user's profile as stored, and InputError exactly for an id not stored |
| UserService.SetName | backend/src/user.py:46-76 | the method's new store and result are SetNameSpec's |
| UserService.SetNameSuccess | backend/src/user.py:54-76 | success exactly for a valid token and names of 1 to 50 characters; only the two names change, and the profile shows them |
| UserService.CheckEmailHeldByOther | backend/src/user.py:97-103 | the scan returns true exactly when another user has the email |
| UserService.SetEmail | backend/src/user.py:79-110 | the method's new store and result are SetEmailSpec's |
| UserService.SetEmailSuccess | backend/src/user.py:90-110 | success exactly for a valid token, an accepted email and no other holder (the caller's own email is allowed); only the email changes; emails stay distinct |
| UserService.CheckHandleHeldByOther | backend/src/user.py:129-135 | the scan returns true exactly when another user has the handle |
| UserService.SetHandle | backend/src/user.py:113-143 | the method's new store and result are SetHandleSpec's |
| UserService.SetHandleSuccess | backend/src/user.py:120-143 | success exactly for a valid token, 2 to 50 characters and no other holder; only the handle changes; handles stay distinct |
| UserService.SetOwnHandleIsNoop | backend/src/user.py:128-143 | setting the handle one already holds changes nothing |

## Left out

- File and JSON plumbing: the documents live in memory. Path helpers and the datetime encoding are also left out.
- The HTTP layer and its error handlers in backend/src/server.py.
- JWT encoding. A token is the caller's user id. The source's checks for a `None` or empty token string have no counterpart, since an id cannot be absent.
- Password reset and its SMTP mail (auth_password_reset_request, auth_password_reset).
- The email regular expression. It is the boolean parameter `emailOk`.
- The random word providers of hangman. The word and topic are inputs to hangman_start.
- user_profile_uploadphoto, which downloads an image over HTTP and crops it with PIL.
- backend/src/users.py, a loop over user_profile, and backend/src/error.py. Only the error kinds are kept, as a datatype.
- Concurrency. Lost updates between whole-document read-modify-write calls are not modelled; there is one sequential client.
- The clock. The source calls datetime.now() several times in one request; the model uses one `now` per request. Times are integers, so the float `.timestamp()` conversions are not modelled.
- Text.Lower: lowers ASCII letters only; Python also lowers other Unicode letters. isalpha is ASCII-only for the same reason.
- Names are strings, never `None`, except the channel name of channels_create, which is an `Option`.
- The docstring of message_sendlater promises a past-time check that the code does not make. The model follows the code.
- The docstring of message_edit promises that an empty text deletes the message. The code does not do this, and the model follows the code.
- HangmanService.Reveal: states only the mask's length. What is revealed is stated by RevealOnlyShows, RevealShowsLetter and GuessEffect.
- MessageService.AddReactor and MessageService.DropReactor: state only the list length. Their effect is stated by ReactTwice, DropAfterAdd and ReactUnreactRoundTrip.
- The joined-channel loop of search. Its result is never used, and on a valid store it cannot fail.
- channel_messages sets an `is_this_user_reacted` flag on reaction dictionaries. This is part of the response only and is never saved. The model computes it in the view.
