/** Authentication (backend/src/auth.py): tokens, registration, login,
    logout and handle generation. A token is the id of the user it was
    issued to; the email regular expression is the parameter `emailOk`. */
module AuthService {
  import opened Wrappers
  import opened Text
  import opened Documents
  import opened Records
  import opened Persistence

  /** A generated handle's base is cut to this many characters. */
  const HandleBaseLength := 20
  /** Names are between 1 and this many characters. */
  const MaxNameLength := 50
  /** Passwords have at least this many characters. */
  const MinPasswordLength := 6

  /* ---- tokens ---- */

  /** check_valid_token: the user's logged-in flag; a token of a user that
      is not stored fails (the source indexes a missing record). */
  function TokenValid(w: World, caller: int): Result<bool>
  {
    match Find(w.users, caller)
    case None => Err(Fault)
    case Some(u) => Ok(u.loggedIn)
  }

  lemma TokenValidSpec(w: World, caller: int)
    requires WorldValid(w)
    ensures TokenValid(w, caller).Err? <==> caller !in w.users.ids
    ensures TokenValid(w, caller) == Ok(true) <==> Find(w.users, caller).Some? && Find(w.users, caller).value.loggedIn
  {
    FindSpec(w.users, UserKey, caller);
  }

  method CheckValidToken(s: Persistence.Store, caller: int) returns (r: Result<bool>)
    requires s.Valid()
    ensures r == TokenValid(s.Snapshot(), caller)
  {
    var u := s.GetUser(caller);
    if u.None? {
      return Err(Fault);
    }
    r := Ok(u.value.loggedIn);
  }

  /* ---- handles ---- */

  function Min(a: int, b: int): int { if a < b then a else b }

  /** The unnumbered handle: lower(first) + "." + lower(last), cut to its
      first 20 characters. */
  function HandleBase(first: string, last: string): (r: string)
    ensures |r| <= HandleBaseLength
  {
    var full := Lower(first) + "." + Lower(last);
    if |full| > HandleBaseLength then full[..HandleBaseLength] else full
  }

  /** The base is the first min(20, n) characters of the lower-cased full
      name "first.last", and it is already in lower case. */
  lemma HandleBaseSpec(first: string, last: string)
    ensures |HandleBase(first, last)| == Min(HandleBaseLength, |first| + |last| + 1)
    ensures IsPrefix(HandleBase(first, last), Lower(first + "." + last))
    ensures Lower(HandleBase(first, last)) == HandleBase(first, last)
  {
    var full := Lower(first) + "." + Lower(last);
    assert Lower(first + "." + last) == full by {
      LowerConcat(first + ".", last);
      LowerConcat(first, ".");
      assert Lower(".") == ".";
    }
    var r := HandleBase(first, last);
    assert r == full[..|r|];
    forall i | 0 <= i < |r| ensures Lower(r)[i] == r[i] {
      assert r[i] == Lower(first + "." + last)[i];
    }
  }

  /** Every handle a stored user holds. */
  function Handles(users: Doc<User>): set<string>
  {
    set i | 0 <= i < |users.records| :: users.records[i].handle
  }

  /** The numbered candidates base + str(m) for m < n. */
  ghost function Below(base: string, n: nat): set<string>
  {
    if n == 0 then {} else Below(base, n - 1) + {base + NatToString(n - 1)}
  }

  lemma {:induction false} NotBelow(base: string, n: nat, k: nat)
    requires n <= k
    ensures base + NatToString(k) !in Below(base, n)
  {
    if n > 0 {
      NotBelow(base, n - 1, k);
      if base + NatToString(k) == base + NatToString(n - 1) {
        assert (base + NatToString(k))[|base|..] == NatToString(k);
        assert (base + NatToString(n - 1))[|base|..] == NatToString(n - 1);
        NatToStringInjective(k, n - 1);
      }
    }
  }

  /** The least k >= n for which base + str(k) is free. It exists because
      the candidates are pairwise distinct and only finitely many handles
      are taken. */
  function FirstFreeNumber(base: string, taken: set<string>, n: nat): (k: nat)
    ensures n <= k
    ensures base + NatToString(k) !in taken
    ensures forall m :: n <= m < k ==> base + NatToString(m) in taken
    decreases taken - Below(base, n)
  {
    if base + NatToString(n) !in taken then n
    else
      NotBelow(base, n, n);
      assert taken - Below(base, n + 1) < taken - Below(base, n) by {
        assert base + NatToString(n) in taken - Below(base, n);
      }
      FirstFreeNumber(base, taken, n + 1)
  }

  /** create_handle over the handles `taken` by the stored users: the base
      if it is free, otherwise base + str(n) for the least free n >= 1. */
  function CreateHandle(first: string, last: string, taken: set<string>): string
  {
    var base := HandleBase(first, last);
    if base !in taken then base else base + NatToString(FirstFreeNumber(base, taken, 1))
  }

  /** The handle generated is never one already held, and it is the first
      free one in the order base, base1, base2, ... */
  lemma CreateHandleSpec(first: string, last: string, taken: set<string>)
    ensures CreateHandle(first, last, taken) !in taken
    ensures HandleBase(first, last) !in taken ==> CreateHandle(first, last, taken) == HandleBase(first, last)
    ensures HandleBase(first, last) in taken ==>
      exists k: nat :: 1 <= k && CreateHandle(first, last, taken) == HandleBase(first, last) + NatToString(k) &&
        forall m :: 1 <= m < k ==> HandleBase(first, last) + NatToString(m) in taken
  {
    var base := HandleBase(first, last);
    if base in taken {
      var k := FirstFreeNumber(base, taken, 1);
      assert CreateHandle(first, last, taken) == base + NatToString(k);
    }
  }

  /** check_unique_handle: walks the user ids and reports whether no user
      holds the handle. */
  method CheckUniqueHandle(s: Persistence.Store, handle: string) returns (unique: bool)
    requires s.Valid()
    ensures unique <==> handle !in Handles(s.users)
  {
    var ids := s.users.ids;
    var i := 0;
    while i < |ids|
      invariant 0 <= i <= |ids|
      invariant forall j :: 0 <= j < i ==> s.users.records[j].handle != handle
    {
      var u := s.GetUser(ids[i]);
      FindAt(s.users, UserKey, i);
      if u.value.handle == handle {
        return false;
      }
      i := i + 1;
    }
    unique := true;
  }

  /* ---- login, registration, logout ---- */

  /** The first stored user (in id order) with the email. */
  function FirstWithEmail(users: seq<User>, email: string): (r: Option<User>)
    ensures r.Some? ==> r.value in users && r.value.email == email
    ensures r.None? <==> forall j :: 0 <= j < |users| ==> users[j].email != email
  {
    if users == [] then None
    else if users[0].email == email then Some(users[0])
    else FirstWithEmail(users[1..], email)
  }

  /** The login loop: the first user, in id order, with the email. */
  method FindUserByEmail(s: Persistence.Store, email: string) returns (u: Option<User>)
    requires s.Valid()
    ensures u == FirstWithEmail(s.users.records, email)
  {
    var ids := s.users.ids;
    var i := 0;
    while i < |ids|
      invariant 0 <= i <= |ids|
      invariant FirstWithEmail(s.users.records, email) == FirstWithEmail(s.users.records[i..], email)
    {
      var found := s.GetUser(ids[i]);
      FindAt(s.users, UserKey, i);
      assert s.users.records[i..][1..] == s.users.records[i + 1..];
      if found.value.email == email {
        return found;
      }
      i := i + 1;
    }
    u := None;
  }

  /** auth_login: InputError for an email the regular expression refuses,
      for an email no user has, or for the wrong password; otherwise the
      user is marked logged in and their id is the token. */
  function LoginSpec(w: World, email: string, password: string, emailOk: bool): Outcome<int>
  {
    if !emailOk then Outcome(w, Err(InputError))
    else
      match FirstWithEmail(w.users.records, email)
      case None => Outcome(w, Err(InputError))
      case Some(u) =>
        if u.password != password then Outcome(w, Err(InputError))
        else Outcome(PutUser(w, u.(loggedIn := true)), Ok(u.userId))
  }

  method AuthLogin(s: Persistence.Store, email: string, password: string, emailOk: bool) returns (r: Result<int>)
    modifies s
    requires s.Valid()
    ensures s.Valid()
    ensures Outcome(s.Snapshot(), r) == LoginSpec(old(s.Snapshot()), email, password, emailOk)
  {
    if !emailOk {
      return Err(InputError);
    }
    var u := FindUserByEmail(s, email);
    if u.None? {
      return Err(InputError);
    }
    if u.value.password != password {
      return Err(InputError);
    }
    var _ := s.UpdateUser(u.value.userId, u.value.(loggedIn := true));
    r := Ok(u.value.userId);
  }

  /** A successful login logs in exactly the user with that email and
      password: afterwards their token is valid. */
  lemma LoginValidates(w: World, email: string, password: string, emailOk: bool)
    requires WorldValid(w)
    requires LoginSpec(w, email, password, emailOk).result.Ok?
    ensures var o := LoginSpec(w, email, password, emailOk);
      && emailOk
      && Find(w.users, o.result.value).Some?
      && Find(w.users, o.result.value).value.email == email
      && Find(w.users, o.result.value).value.password == password
      && TokenValid(o.world, o.result.value) == Ok(true)
  {
    var u := FirstWithEmail(w.users.records, email).value;
    var i :| 0 <= i < |w.users.records| && w.users.records[i] == u;
    FindAt(w.users, UserKey, i);
    ReplaceSpec(w.users, UserKey, u.userId, u.(loggedIn := true));
  }

  /** Whether a stored user already has the email (the register loop). */
  predicate EmailTaken(users: Doc<User>, email: string)
  {
    exists i :: 0 <= i < |users.records| && users.records[i].email == email
  }

  method CheckEmailTaken(s: Persistence.Store, email: string) returns (taken: bool)
    requires s.Valid()
    ensures taken <==> EmailTaken(s.users, email)
  {
    var ids := s.users.ids;
    var i := 0;
    while i < |ids|
      invariant 0 <= i <= |ids|
      invariant forall j :: 0 <= j < i ==> s.users.records[j].email != email
    {
      var u := s.GetUser(ids[i]);
      FindAt(s.users, UserKey, i);
      if u.value.email == email {
        return true;
      }
      i := i + 1;
    }
    taken := false;
  }

  /** auth_register: the checks in order, then the user is created, logged
      in, made a global owner when nobody was registered before, and given
      a generated handle. */
  function RegisterSpec(w: World, email: string, password: string, first: string, last: string, emailOk: bool): Outcome<int>
  {
    if !(1 <= |first| <= MaxNameLength) then Outcome(w, Err(InputError))
    else if !(1 <= |last| <= MaxNameLength) then Outcome(w, Err(InputError))
    else if !emailOk then Outcome(w, Err(InputError))
    else if EmailTaken(w.users, email) then Outcome(w, Err(InputError))
    else if |password| < MinPasswordLength then Outcome(w, Err(InputError))
    else
      var id := NextId(w.users);
      var w1 := w.(users := Insert(w.users, NewUser(id, first, last, email, password)));
      var login := LoginSpec(w1, email, password, emailOk);
      if login.result.Err? then Outcome(login.world, Err(login.result.error))
      else
        var w2 := login.world;
        match Find(w2.users, id)
        case None => Outcome(w2, Err(Fault))
        case Some(u) =>
          var level := if w.users.ids == [] then OwnerPermission else u.permissionLevel;
          var handle := CreateHandle(first, last, Handles(w2.users));
          Outcome(PutUser(w2, u.(permissionLevel := level, handle := handle)), Ok(id))
  }

  method AuthRegister(s: Persistence.Store, email: string, password: string, first: string, last: string, emailOk: bool)
    returns (r: Result<int>)
    modifies s
    requires s.Valid()
    ensures s.Valid()
    ensures Outcome(s.Snapshot(), r) == RegisterSpec(old(s.Snapshot()), email, password, first, last, emailOk)
  {
    if !(1 <= |first| <= MaxNameLength) || !(1 <= |last| <= MaxNameLength) || !emailOk {
      return Err(InputError);
    }
    var allIds := s.users.ids;
    var taken := CheckEmailTaken(s, email);
    if taken {
      return Err(InputError);
    }
    if |password| < MinPasswordLength {
      return Err(InputError);
    }
    var id := s.CreateUser(first, last, email, password);
    var login := AuthLogin(s, email, password, emailOk);
    if login.Err? {
      return Err(login.error);
    }
    var u := s.GetUser(id);
    if u.None? {
      return Err(Fault);
    }
    var level := if allIds == [] then OwnerPermission else u.value.permissionLevel;
    var handle := CreateHandle(first, last, Handles(s.users));
    var _ := s.UpdateUser(id, u.value.(permissionLevel := level, handle := handle));
    r := Ok(id);
  }

  /** Registration fails, changing nothing, exactly when a name length is
      outside 1..50, the email is refused or taken, or the password is
      shorter than 6. */
  lemma RegisterErrors(w: World, email: string, password: string, first: string, last: string, emailOk: bool)
    ensures var o := RegisterSpec(w, email, password, first, last, emailOk);
      o.result == Err(InputError) && o.world == w <==>
        !(1 <= |first| <= 50) || !(1 <= |last| <= 50) || !emailOk || EmailTaken(w.users, email) || |password| < 6
  {
    var o := RegisterSpec(w, email, password, first, last, emailOk);
    if !(!(1 <= |first| <= 50) || !(1 <= |last| <= 50) || !emailOk || EmailTaken(w.users, email) || |password| < 6) {
      var id := NextId(w.users);
      var w1 := w.(users := Insert(w.users, NewUser(id, first, last, email, password)));
      assert w1.users.records[|w.users.records|].email == email;
      assert FirstWithEmail(w1.users.records, email).Some?;
      assert LoginSpec(w1, email, password, emailOk).result.Ok?;
    }
  }

  /** The login inside a registration finds the new user: no stored user
      had the email, so the new one is the first with it. */
  lemma RegisterLogin(w: World, email: string, password: string, first: string, last: string, emailOk: bool)
    requires WorldValid(w) && emailOk && !EmailTaken(w.users, email)
    ensures var nu := NewUser(NextId(w.users), first, last, email, password);
      var w1 := w.(users := Insert(w.users, nu));
      LoginSpec(w1, email, password, emailOk) == Outcome(PutUser(w1, nu.(loggedIn := true)), Ok(NextId(w.users)))
  {
    var nu := NewUser(NextId(w.users), first, last, email, password);
    var rs := w.users.records + [nu];
    forall j | 0 <= j < |rs| - 1 ensures rs[j].email != email {
      assert rs[j] == w.users.records[j];
    }
    FirstWithEmailLast(rs, email);
  }

  /** A user list that extends another holds every handle of the other. */
  lemma HandlesGrow(d: Doc<User>, d': Doc<User>)
    requires |d.records| <= |d'.records| && d'.records[..|d.records|] == d.records
    ensures Handles(d) <= Handles(d')
  {
    forall h | h in Handles(d) ensures h in Handles(d') {
      var j :| 0 <= j < |d.records| && d.records[j].handle == h;
      assert d'.records[j] == d.records[j];
    }
  }

  /** A successful registration stores a new user under a fresh id, logged
      in, with a handle no other user holds; only the very first user
      becomes a global owner. */
  lemma RegisterSuccess(w: World, email: string, password: string, first: string, last: string, emailOk: bool)
    requires WorldValid(w)
    requires RegisterSpec(w, email, password, first, last, emailOk).result.Ok?
    ensures var o := RegisterSpec(w, email, password, first, last, emailOk);
      var id := o.result.value;
      && id == NextId(w.users) && id !in w.users.ids
      && o.world.users.ids == w.users.ids + [id]
      && Find(o.world.users, id).Some?
      && var u := Find(o.world.users, id).value;
      && u.email == email && u.firstName == first && u.lastName == last && u.password == password
      && u.loggedIn
      && (u.permissionLevel == OwnerPermission <==> w.users.ids == [])
      && u.handle !in Handles(w.users)
  {
    var id := NextId(w.users);
    var nu := NewUser(id, first, last, email, password);
    var w1 := w.(users := Insert(w.users, nu));
    RegisterLogin(w, email, password, first, last, emailOk);
    InsertSpec(w.users, UserKey, nu);
    var u := nu.(loggedIn := true);
    var w2 := PutUser(w1, u);
    ReplaceSpec(w1.users, UserKey, id, u);
    assert Find(w2.users, id) == Some(u);
    var handle := CreateHandle(first, last, Handles(w2.users));
    CreateHandleSpec(first, last, Handles(w2.users));
    var level := if w.users.ids == [] then OwnerPermission else u.permissionLevel;
    var fin := u.(permissionLevel := level, handle := handle);
    ReplaceSpec(w2.users, UserKey, id, fin);
    assert RegisterSpec(w, email, password, first, last, emailOk) == Outcome(PutUser(w2, fin), Ok(id));
    HandlesGrow(w.users, w2.users);
  }

  /** When only the last user has the email, the search finds that user. */
  lemma {:induction false} FirstWithEmailLast(users: seq<User>, email: string)
    requires |users| > 0 && users[|users| - 1].email == email
    requires forall j :: 0 <= j < |users| - 1 ==> users[j].email != email
    ensures FirstWithEmail(users, email) == Some(users[|users| - 1])
    decreases |users|
  {
    if |users| > 1 {
      FirstWithEmailLast(users[1..], email);
    }
  }

  /** auth_logout: a valid token's user is logged out; an invalid one
      changes nothing and reports failure. */
  function LogoutSpec(w: World, caller: int): Outcome<bool>
  {
    match TokenValid(w, caller)
    case Err(e) => Outcome(w, Err(e))
    case Ok(valid) =>
      if valid then Outcome(PutUser(w, Find(w.users, caller).value.(loggedIn := false)), Ok(true))
      else Outcome(w, Ok(false))
  }

  method AuthLogout(s: Persistence.Store, caller: int) returns (r: Result<bool>)
    modifies s
    requires s.Valid()
    ensures s.Valid()
    ensures Outcome(s.Snapshot(), r) == LogoutSpec(old(s.Snapshot()), caller)
  {
    var valid := CheckValidToken(s, caller);
    if valid.Err? {
      return Err(valid.error);
    }
    if !valid.value {
      return Ok(false);
    }
    var u := s.GetUser(caller);
    var _ := s.UpdateUser(caller, u.value.(loggedIn := false));
    r := Ok(true);
  }

  /** Logout succeeds exactly for a valid token, and afterwards that token
      is no longer valid; nothing but the flag changes. */
  lemma LogoutInvalidates(w: World, caller: int)
    requires WorldValid(w) && caller in w.users.ids
    ensures var o := LogoutSpec(w, caller);
      && (o.result == Ok(true) <==> TokenValid(w, caller) == Ok(true))
      && TokenValid(o.world, caller) == Ok(false)
      && o.world.users.ids == w.users.ids
  {
    FindSpec(w.users, UserKey, caller);
    var u := Find(w.users, caller).value;
    ReplaceSpec(w.users, UserKey, caller, u.(loggedIn := false));
  }
}
