/** User profiles (backend/src/user.py): profile, setname, setemail and
    sethandle. The token is the caller's user id; the email regular
    expression is the parameter `emailOk`. */
module UserService {
  import opened Wrappers
  import opened Seqs
  import opened Documents
  import opened Records
  import opened Persistence
  import opened AuthService

  /** A handle has at least this many characters. */
  const MinHandleLength := 2
  /** A handle has at most this many characters. */
  const MaxHandleLength := 50

  datatype Profile = Profile(uId: int, email: string, nameFirst: string, nameLast: string, handleStr: string, profileImgUrl: string)

  /** Writing back the caller's own record changes that record only. */
  lemma PutOwn(w: World, u: User)
    requires WorldValid(w) && u.userId in w.users.ids
    ensures WorldValid(PutUser(w, u))
    ensures PutUser(w, u).users.ids == w.users.ids
    ensures PutUser(w, u).users.records == w.users.records[IndexOf(w.users.ids, u.userId) := u]
    ensures forall x :: Find(PutUser(w, u).users, x) == if x == u.userId then Some(u) else Find(w.users, x)
  {
    ReplaceSpec(w.users, UserKey, u.userId, u);
  }

  /* ---- profile ---- */

  /** user_profile: token, then a stored target; the caller need not be
      the target. */
  function ProfileSpec(w: World, caller: int, uid: int): Result<Profile>
  {
    match TokenValid(w, caller)
    case Err(e) => Err(e)
    case Ok(valid) =>
      if !valid then Err(InputError)
      else if uid !in w.users.ids then Err(InputError)
      else
        match Find(w.users, uid)
        case None => Err(Fault)
        case Some(u) => Ok(Profile(uid, u.email, u.firstName, u.lastName, u.handle, u.profilePicUrl))
  }

  method UserProfile(s: Persistence.Store, caller: int, uid: int) returns (r: Result<Profile>)
    requires s.Valid()
    ensures r == ProfileSpec(s.Snapshot(), caller, uid)
  {
    var valid := CheckValidToken(s, caller);
    if valid.Err? {
      return Err(valid.error);
    }
    if !valid.value {
      return Err(InputError);
    }
    if uid !in s.users.ids {
      return Err(InputError);
    }
    var u := s.GetUser(uid);
    r := Ok(Profile(uid, u.value.email, u.value.firstName, u.value.lastName, u.value.handle, u.value.profilePicUrl));
  }

  /** A logged-in caller sees any stored user's profile, exactly as
      stored, and gets InputError for an id that is not stored. */
  lemma ProfileShows(w: World, caller: int, uid: int)
    requires WorldValid(w) && TokenValid(w, caller) == Ok(true)
    ensures ProfileSpec(w, caller, uid).Ok? <==> uid in w.users.ids
    ensures ProfileSpec(w, caller, uid).Err? ==> ProfileSpec(w, caller, uid) == Err(InputError)
    ensures ProfileSpec(w, caller, uid).Ok? ==>
      var u := Find(w.users, uid).value;
      ProfileSpec(w, caller, uid).value == Profile(uid, u.email, u.firstName, u.lastName, u.handle, u.profilePicUrl)
  {
    FindSpec(w.users, UserKey, uid);
  }

  /* ---- setname ---- */

  /** user_profile_setname: token, then each name 1 to 50 characters;
      then the caller's names are replaced. */
  function SetNameSpec(w: World, caller: int, first: string, last: string): Outcome<()>
  {
    match TokenValid(w, caller)
    case Err(e) => Outcome(w, Err(e))
    case Ok(valid) =>
      if !valid then Outcome(w, Err(InputError))
      else if |first| < 1 || |first| > MaxNameLength || |last| < 1 || |last| > MaxNameLength then Outcome(w, Err(InputError))
      else
        var u := Find(w.users, caller).value;
        Outcome(PutUser(w, u.(firstName := first, lastName := last)), Ok(()))
  }

  method SetName(s: Persistence.Store, caller: int, first: string, last: string) returns (r: Result<()>)
    modifies s
    requires s.Valid()
    ensures s.Valid()
    ensures Outcome(s.Snapshot(), r) == SetNameSpec(old(s.Snapshot()), caller, first, last)
  {
    var valid := CheckValidToken(s, caller);
    if valid.Err? {
      return Err(valid.error);
    }
    if !valid.value {
      return Err(InputError);
    }
    if |first| < 1 {
      return Err(InputError);
    }
    if |first| > MaxNameLength {
      return Err(InputError);
    }
    if |last| < 1 {
      return Err(InputError);
    }
    if |last| > MaxNameLength {
      return Err(InputError);
    }
    var u := s.GetUser(caller);
    var _ := s.UpdateUser(caller, u.value.(firstName := first, lastName := last));
    r := Ok(());
  }

  /** Setting names succeeds exactly for a logged-in caller and names of
      1 to 50 characters, and then changes only the caller's two names;
      the profile shows them at once. */
  lemma SetNameSuccess(w: World, caller: int, first: string, last: string)
    requires WorldValid(w)
    ensures SetNameSpec(w, caller, first, last).result.Ok? <==>
      TokenValid(w, caller) == Ok(true) && 1 <= |first| <= MaxNameLength && 1 <= |last| <= MaxNameLength
    ensures SetNameSpec(w, caller, first, last).result.Err? ==> SetNameSpec(w, caller, first, last).world == w
    ensures SetNameSpec(w, caller, first, last).result.Ok? ==>
      var w' := SetNameSpec(w, caller, first, last).world;
      var u := Find(w.users, caller).value;
      && WorldValid(w')
      && Find(w'.users, caller) == Some(u.(firstName := first, lastName := last))
      && (forall x :: x != caller ==> Find(w'.users, x) == Find(w.users, x))
      && w'.channels == w.channels && w'.messages == w.messages
      && ProfileSpec(w', caller, caller) == Ok(Profile(caller, u.email, first, last, u.handle, u.profilePicUrl))
  {
    FindSpec(w.users, UserKey, caller);
    if SetNameSpec(w, caller, first, last).result.Ok? {
      var u := Find(w.users, caller).value;
      PutOwn(w, u.(firstName := first, lastName := last));
    }
  }

  /* ---- setemail ---- */

  /** Whether a user other than `caller` holds the email (the setemail
      loop). */
  predicate EmailHeldByOther(users: Doc<User>, email: string, caller: int)
  {
    exists j :: 0 <= j < |users.records| && users.records[j].email == email && users.records[j].userId != caller
  }

  method CheckEmailHeldByOther(s: Persistence.Store, email: string, caller: int) returns (held: bool)
    requires s.Valid()
    ensures held <==> EmailHeldByOther(s.users, email, caller)
  {
    var ids := s.users.ids;
    var i := 0;
    while i < |ids|
      invariant 0 <= i <= |ids|
      invariant forall j :: 0 <= j < i ==> !(s.users.records[j].email == email && s.users.records[j].userId != caller)
    {
      var u := s.GetUser(ids[i]);
      FindAt(s.users, UserKey, i);
      if u.value.email == email && u.value.userId != caller {
        return true;
      }
      i := i + 1;
    }
    held := false;
  }

  /** user_profile_setemail: token, the email accepted by the regular
      expression, no other user holding it; then the caller's email is
      replaced. */
  function SetEmailSpec(w: World, caller: int, email: string, emailOk: bool): Outcome<()>
  {
    match TokenValid(w, caller)
    case Err(e) => Outcome(w, Err(e))
    case Ok(valid) =>
      if !valid then Outcome(w, Err(InputError))
      else if !emailOk then Outcome(w, Err(InputError))
      else if EmailHeldByOther(w.users, email, caller) then Outcome(w, Err(InputError))
      else
        var u := Find(w.users, caller).value;
        Outcome(PutUser(w, u.(email := email)), Ok(()))
  }

  method SetEmail(s: Persistence.Store, caller: int, email: string, emailOk: bool) returns (r: Result<()>)
    modifies s
    requires s.Valid()
    ensures s.Valid()
    ensures Outcome(s.Snapshot(), r) == SetEmailSpec(old(s.Snapshot()), caller, email, emailOk)
  {
    var valid := CheckValidToken(s, caller);
    if valid.Err? {
      return Err(valid.error);
    }
    if !valid.value {
      return Err(InputError);
    }
    if !emailOk {
      return Err(InputError);
    }
    var held := CheckEmailHeldByOther(s, email, caller);
    if held {
      return Err(InputError);
    }
    var u := s.GetUser(caller);
    var _ := s.UpdateUser(caller, u.value.(email := email));
    r := Ok(());
  }

  /** No two stored users share an email. */
  ghost predicate DistinctEmails(users: Doc<User>)
  {
    forall i, j :: 0 <= i < |users.records| && 0 <= j < |users.records| && i != j ==>
      users.records[i].email != users.records[j].email
  }

  /** Setting an email succeeds exactly for a logged-in caller, an
      accepted email and no other holder, the caller's own current email
      included; only the caller's email changes, and no two users share
      an email afterwards if none did before. */
  lemma SetEmailSuccess(w: World, caller: int, email: string, emailOk: bool)
    requires WorldValid(w)
    ensures SetEmailSpec(w, caller, email, emailOk).result.Ok? <==>
      TokenValid(w, caller) == Ok(true) && emailOk && !EmailHeldByOther(w.users, email, caller)
    ensures SetEmailSpec(w, caller, email, emailOk).result.Err? ==> SetEmailSpec(w, caller, email, emailOk).world == w
    ensures SetEmailSpec(w, caller, email, emailOk).result.Ok? ==>
      var w' := SetEmailSpec(w, caller, email, emailOk).world;
      && WorldValid(w')
      && Find(w'.users, caller) == Some(Find(w.users, caller).value.(email := email))
      && (forall x :: x != caller ==> Find(w'.users, x) == Find(w.users, x))
      && (DistinctEmails(w.users) ==> DistinctEmails(w'.users))
  {
    FindSpec(w.users, UserKey, caller);
    if SetEmailSpec(w, caller, email, emailOk).result.Ok? {
      var u := Find(w.users, caller).value;
      PutOwn(w, u.(email := email));
      var i := IndexOf(w.users.ids, caller);
      FindAt(w.users, UserKey, i);
      var recs := w.users.records;
      var recs' := recs[i := u.(email := email)];
      forall j | 0 <= j < |recs| && j != i ensures recs[j].userId != caller {
        assert recs[j].userId == w.users.ids[j];
      }
      if DistinctEmails(w.users) {
        forall a, b | 0 <= a < |recs'| && 0 <= b < |recs'| && a != b ensures recs'[a].email != recs'[b].email {
          if a == i {
            assert recs'[b] == recs[b];
          } else if b == i {
            assert recs'[a] == recs[a];
          }
        }
      }
    }
  }

  /* ---- sethandle ---- */

  /** Whether a user other than `caller` holds the handle (the sethandle
      loop). */
  predicate HandleHeldByOther(users: Doc<User>, handle: string, caller: int)
  {
    exists j :: 0 <= j < |users.records| && users.records[j].handle == handle && users.records[j].userId != caller
  }

  method CheckHandleHeldByOther(s: Persistence.Store, handle: string, caller: int) returns (held: bool)
    requires s.Valid()
    ensures held <==> HandleHeldByOther(s.users, handle, caller)
  {
    var ids := s.users.ids;
    var i := 0;
    while i < |ids|
      invariant 0 <= i <= |ids|
      invariant forall j :: 0 <= j < i ==> !(s.users.records[j].handle == handle && s.users.records[j].userId != caller)
    {
      var u := s.GetUser(ids[i]);
      FindAt(s.users, UserKey, i);
      if u.value.handle == handle && u.value.userId != caller {
        return true;
      }
      i := i + 1;
    }
    held := false;
  }

  /** user_profile_sethandle: token, a handle of 2 to 50 characters that
      no other user holds; then the caller's handle is replaced. */
  function SetHandleSpec(w: World, caller: int, handle: string): Outcome<()>
  {
    match TokenValid(w, caller)
    case Err(e) => Outcome(w, Err(e))
    case Ok(valid) =>
      if !valid then Outcome(w, Err(InputError))
      else if |handle| < MinHandleLength || |handle| > MaxHandleLength then Outcome(w, Err(InputError))
      else if HandleHeldByOther(w.users, handle, caller) then Outcome(w, Err(InputError))
      else
        var u := Find(w.users, caller).value;
        Outcome(PutUser(w, u.(handle := handle)), Ok(()))
  }

  method SetHandle(s: Persistence.Store, caller: int, handle: string) returns (r: Result<()>)
    modifies s
    requires s.Valid()
    ensures s.Valid()
    ensures Outcome(s.Snapshot(), r) == SetHandleSpec(old(s.Snapshot()), caller, handle)
  {
    var valid := CheckValidToken(s, caller);
    if valid.Err? {
      return Err(valid.error);
    }
    if !valid.value {
      return Err(InputError);
    }
    if |handle| < MinHandleLength {
      return Err(InputError);
    }
    if |handle| > MaxHandleLength {
      return Err(InputError);
    }
    var held := CheckHandleHeldByOther(s, handle, caller);
    if held {
      return Err(InputError);
    }
    var u := s.GetUser(caller);
    var _ := s.UpdateUser(caller, u.value.(handle := handle));
    r := Ok(());
  }

  /** No two stored users share a handle. */
  ghost predicate DistinctHandles(users: Doc<User>)
  {
    forall i, j :: 0 <= i < |users.records| && 0 <= j < |users.records| && i != j ==>
      users.records[i].handle != users.records[j].handle
  }

  /** Setting a handle succeeds exactly for a logged-in caller, a handle
      of 2 to 50 characters and no other holder; only the caller's handle
      changes, and handles stay distinct if they were. */
  lemma SetHandleSuccess(w: World, caller: int, handle: string)
    requires WorldValid(w)
    ensures SetHandleSpec(w, caller, handle).result.Ok? <==>
      && TokenValid(w, caller) == Ok(true)
      && MinHandleLength <= |handle| <= MaxHandleLength
      && !HandleHeldByOther(w.users, handle, caller)
    ensures SetHandleSpec(w, caller, handle).result.Err? ==> SetHandleSpec(w, caller, handle).world == w
    ensures SetHandleSpec(w, caller, handle).result.Ok? ==>
      var w' := SetHandleSpec(w, caller, handle).world;
      && WorldValid(w')
      && Find(w'.users, caller) == Some(Find(w.users, caller).value.(handle := handle))
      && (forall x :: x != caller ==> Find(w'.users, x) == Find(w.users, x))
      && (DistinctHandles(w.users) ==> DistinctHandles(w'.users))
  {
    FindSpec(w.users, UserKey, caller);
    if SetHandleSpec(w, caller, handle).result.Ok? {
      var u := Find(w.users, caller).value;
      PutOwn(w, u.(handle := handle));
      var i := IndexOf(w.users.ids, caller);
      FindAt(w.users, UserKey, i);
      var recs := w.users.records;
      var recs' := recs[i := u.(handle := handle)];
      forall j | 0 <= j < |recs| && j != i ensures recs[j].userId != caller {
        assert recs[j].userId == w.users.ids[j];
      }
      if DistinctHandles(w.users) {
        forall a, b | 0 <= a < |recs'| && 0 <= b < |recs'| && a != b ensures recs'[a].handle != recs'[b].handle {
          if a == i {
            assert recs'[b] == recs[b];
          } else if b == i {
            assert recs'[a] == recs[a];
          }
        }
      }
    }
  }

  /** Setting the handle one already holds succeeds and changes nothing. */
  lemma SetOwnHandleIsNoop(w: World, caller: int)
    requires WorldValid(w) && TokenValid(w, caller) == Ok(true) && DistinctHandles(w.users)
    requires MinHandleLength <= |Find(w.users, caller).value.handle| <= MaxHandleLength
    ensures SetHandleSpec(w, caller, Find(w.users, caller).value.handle) == Outcome(w, Ok(()))
  {
    var u := Find(w.users, caller).value;
    FindSpec(w.users, UserKey, caller);
    var i := IndexOf(w.users.ids, caller);
    FindAt(w.users, UserKey, i);
    assert !HandleHeldByOther(w.users, u.handle, caller);
    assert u.(handle := u.handle) == u;
    assert w.users.records[i := u] == w.users.records;
  }
}
