/**
 The account store as its callers see it: a book of accounts by name. Every call on the stored
 sequence of users is a call on that book, allowed and refused for reasons that can be read off it.
 */
module AccountBook {
  import opened Wrappers
  import opened Accounts
  import opened AccountTheorems

  type Book = map<string, User>

  function Names(users: seq<User>): set<string> {
    set i | 0 <= i < |users| :: users[i].username
  }

  function BookOf(users: seq<User>): Book {
    map name | name in Names(users) :: users[IndexOf(users, name)]
  }

  /** The book a file stands for. */
  function Shown(file: File, env: Env): Option<Book> {
    var users := Loaded(file, env);
    if users.Ok? then Some(BookOf(users.value)) else None
  }

  // ---------------------------------------------------------------- calls on a book

  ghost predicate HasAdmin(book: Book) {
    exists name :: name in book && book[name].role == Admin && book[name].enabled
  }

  /** The account after a patch: what the patch names is set, the rest stays, and the tokens issued
      before are void if anything changed. */
  function PatchedAccount(u: User, patch: Patch): User {
    var role, enabled := if patch.role.Some? then patch.role.value else u.role,
                         if patch.enabled.Some? then patch.enabled.value else u.enabled;
    if role == u.role && enabled == u.enabled then u
    else User(u.username, u.passwordHash, role, enabled, Bump(u.tokenVersion), u.mustChangePassword, u.systemAccount)
  }

  /** Whether a patch asks for less than an enabled administrator. */
  predicate Lowers(patch: Patch) {
    patch.enabled == Some(false) || (patch.role != None && patch.role != Some(Admin))
  }

  ghost predicate Allowed(book: Book, call: Call, env: Env) {
    match call
    case Create(name, password, role) =>
      && ValidUsername(name) && ValidPassword(password) && ValidRole(role)
      && env.hash.Some? && env.hash.value != "" && env.random.Some? && name !in book
    case Update(actor, name, patch) =>
      && name in book && (patch.role.Some? ==> ValidRole(patch.role.value))
      && (Lowers(patch) ==> !book[name].systemAccount && !(actor == name && book[name].role == Admin))
      && HasAdmin(book[name := PatchedAccount(book[name], patch)])
    case Delete(actor, name) =>
      actor != name && name in book && !book[name].systemAccount && HasAdmin(book - {name})
    case SetPassword(name, password, _) =>
      ValidPassword(password) && env.hash.Some? && env.hash.value != "" && name in book
    case Revoke(name) => name in book
    case Authenticate(name) =>
      name in book && book[name].enabled && env.verdict == MatchesLegacy ==> env.hash.Some? && env.hash.value != ""
  }

  /** Why a call is refused: the first of the reasons, in the order in which the store looks at them. */
  ghost function Reason(book: Book, call: Call, env: Env): Option<Error> {
    match call
    case Create(name, password, role) =>
      if !ValidUsername(name) then Some(InvalidUsername)
      else if !ValidPassword(password) then Some(InvalidPassword)
      else if !ValidRole(role) then Some(InvalidRole)
      else if env.hash.None? then Some(NoHash)
      else if env.random.None? then Some(NoEntropy)
      else if name in book then Some(UserExists)
      else if env.hash.value == "" then Some(InvalidUser)
      else None
    case Update(actor, name, patch) =>
      if name !in book then Some(UserNotFound)
      else if patch.role.Some? && !ValidRole(patch.role.value) then Some(InvalidRole)
      else if Lowers(patch) && actor == name && book[name].role == Admin then Some(SelfModification)
      else if Lowers(patch) && book[name].systemAccount then Some(SystemAccount)
      else if !HasAdmin(book[name := PatchedAccount(book[name], patch)]) then Some(LastAdmin)
      else None
    case Delete(actor, name) =>
      if actor == name then Some(SelfDelete)
      else if name !in book then Some(UserNotFound)
      else if book[name].systemAccount then Some(SystemAccount)
      else if !HasAdmin(book - {name}) then Some(LastAdmin)
      else None
    case SetPassword(name, password, _) =>
      if !ValidPassword(password) then Some(InvalidPassword)
      else if env.hash.None? then Some(NoHash)
      else if name !in book then Some(UserNotFound)
      else if env.hash.value == "" then Some(InvalidUser)
      else None
    case Revoke(name) => if name !in book then Some(UserNotFound) else None
    case Authenticate(name) =>
      if !(name in book && book[name].enabled && env.verdict == MatchesLegacy) then None
      else if env.hash.None? then Some(NoHash)
      else if env.hash.value == "" then Some(InvalidUser)
      else None
  }

  lemma ReasonIff(book: Book, call: Call, env: Env)
    ensures Reason(book, call, env).None? <==> Allowed(book, call, env)
  {
    hide ValidUsername, ValidPassword, ValidRole, HasAdmin, PatchedAccount;
  }

  /** The book after an allowed call. */
  function NewBook(book: Book, call: Call, env: Env): Book {
    match call
    case Create(name, _, role) =>
      if env.hash.Some? && env.random.Some?
      then book[name := User(name, env.hash.value, role, true, env.random.value, false, false)] else book
    case Update(_, name, patch) => if name in book then book[name := PatchedAccount(book[name], patch)] else book
    case Delete(_, name) => book - {name}
    case SetPassword(name, _, _) =>
      if name in book && env.hash.Some? then
        var u := book[name];
        book[name := User(name, env.hash.value, u.role, u.enabled, Bump(u.tokenVersion), false, u.systemAccount)]
      else book
    case Revoke(name) =>
      if name in book then book[name := book[name].(tokenVersion := Bump(book[name].tokenVersion))] else book
    case Authenticate(name) =>
      if name in book && book[name].enabled && env.verdict == MatchesLegacy && env.hash.Some?
      then book[name := book[name].(passwordHash := env.hash.value)] else book
  }

  /** Whom an allowed call returns. */
  function Returned(book: Book, call: Call, env: Env): Option<User> {
    match call
    case Create(_, _, _) => None
    case Delete(_, _) => None
    case Authenticate(name) =>
      if name in book && book[name].enabled && env.verdict != Wrong && name in NewBook(book, call, env)
      then Some(NewBook(book, call, env)[name]) else None
    case _ => if call.username in NewBook(book, call, env) then Some(NewBook(book, call, env)[call.username]) else None
  }

  // ---------------------------------------------------------------- books of sequences

  /** Users as loading leaves them. */
  ghost predicate Ready(users: seq<User>) {
    ValidUsers(users) && forall i :: 0 <= i < |users| ==> users[i].tokenVersion != 0
  }

  lemma InBook(users: seq<User>, name: string)
    ensures name in BookOf(users) <==> IndexOf(users, name) >= 0
    ensures IndexOf(users, name) >= 0 ==> BookOf(users)[name] == users[IndexOf(users, name)]
  {
    if IndexOf(users, name) >= 0 {
      assert users[IndexOf(users, name)].username in Names(users);
    }
  }

  lemma AdminInBook(users: seq<User>)
    requires NamesUnique(users)
    ensures HasAdmin(BookOf(users)) <==> EnabledAdmins(users) > 0
  {
    AdminsMean(users);
    if i :| 0 <= i < |users| && IsEnabledAdmin(users[i]) {
      IndexIs(users, i);
      InBook(users, users[i].username);
      assert users[i].username in BookOf(users);
    }
    if name :| name in BookOf(users) && BookOf(users)[name].role == Admin && BookOf(users)[name].enabled {
      InBook(users, name);
      assert IsEnabledAdmin(users[IndexOf(users, name)]);
    }
  }

  /** Every user is in the book under its own name, and nobody else is. */
  lemma BookAt(users: seq<User>)
    requires NamesUnique(users)
    ensures forall i :: 0 <= i < |users| ==>
              users[i].username in BookOf(users) && BookOf(users)[users[i].username] == users[i]
    ensures forall name :: name in BookOf(users) ==> exists i :: 0 <= i < |users| && users[i].username == name
  {
    forall i | 0 <= i < |users|
      ensures users[i].username in BookOf(users) && BookOf(users)[users[i].username] == users[i]
    {
      IndexIs(users, i);
      InBook(users, users[i].username);
    }
  }

  lemma BookIs(users: seq<User>, book: Book)
    requires NamesUnique(users)
    requires forall i :: 0 <= i < |users| ==> users[i].username in book && book[users[i].username] == users[i]
    requires forall name :: name in book ==> exists i :: 0 <= i < |users| && users[i].username == name
    ensures BookOf(users) == book
  {
    hide BookOf, NamesUnique;
    BookAt(users);
    forall name
      ensures name in BookOf(users) <==> name in book
      ensures name in book ==> BookOf(users)[name] == book[name]
    {
    }
  }

  lemma BookReplaced(users: seq<User>, i: nat, u: User)
    requires i < |users| && NamesUnique(users) && u.username == users[i].username
    ensures NamesUnique(users[i := u]) && BookOf(users[i := u]) == BookOf(users)[u.username := u]
  {
    hide BookOf;
    var now, book := users[i := u], BookOf(users)[u.username := u];
    BookAt(users);
    forall name | name in book
      ensures exists k :: 0 <= k < |now| && now[k].username == name
    {
      var k :| 0 <= k < |users| && users[k].username == name;
      assert now[k].username == name;
    }
    BookIs(now, book);
  }

  lemma BookDropped(users: seq<User>, i: nat)
    requires i < |users| && NamesUnique(users)
    ensures var now := users[..i] + users[i + 1..];
            NamesUnique(now) && BookOf(now) == BookOf(users) - {users[i].username}
  {
    hide BookOf;
    var now, book := users[..i] + users[i + 1..], BookOf(users) - {users[i].username};
    BookAt(users);
    assert forall k :: 0 <= k < |now| ==> now[k] == users[if k < i then k else k + 1];
    forall name | name in book
      ensures exists k :: 0 <= k < |now| && now[k].username == name
    {
      var k :| 0 <= k < |users| && users[k].username == name;
      assert now[if k < i then k else k - 1].username == name;
    }
    BookIs(now, book);
  }

  lemma BookAdded(users: seq<User>, u: User)
    requires IndexOf(users, u.username) < 0 && NamesUnique(users)
    ensures NamesUnique(users + [u]) && BookOf(users + [u]) == BookOf(users)[u.username := u]
  {
    hide BookOf;
    var now, book := users + [u], BookOf(users)[u.username := u];
    BookAt(users);
    assert forall k :: 0 <= k < |users| ==> now[k] == users[k];
    forall name | name in book
      ensures exists k :: 0 <= k < |now| && now[k].username == name
    {
      if name == u.username {
        assert now[|users|] == u;
      } else {
        var k :| 0 <= k < |users| && users[k].username == name;
        assert now[k].username == name;
      }
    }
    BookIs(now, book);
  }

  /** The book after validation has fixed every version of zero. */
  function FixedBook(book: Book): Book {
    map name | name in book :: FixedUser(book[name])
  }

  lemma BookVersioned(users: seq<User>)
    requires NamesUnique(users)
    ensures NamesUnique(Versioned(users)) && BookOf(Versioned(users)) == FixedBook(BookOf(users))
  {
    hide BookOf;
    var now := Versioned(users);
    BookAt(users);
    assert forall k :: 0 <= k < |users| ==> now[k] == FixedUser(users[k]) && now[k].username == users[k].username;
    BookIs(now, FixedBook(BookOf(users)));
  }

  // ---------------------------------------------------------------- every call, on the book

  /** The call gets as far as storing, or as far as having nothing to store. */
  predicate Passes(users: seq<User>, call: Call, env: Env) {
    && Refused(call, env).None? && Edited(users, call, env).Ok?
    && (Edited(users, call, env).value.Changed? ==> Problem(Edited(users, call, env).value.users).None?)
  }

  /** The users after such a call. */
  function Outcome(users: seq<User>, call: Call, env: Env): seq<User>
    requires Passes(users, call, env)
  {
    var edit := Edited(users, call, env).value;
    if edit.Changed? then Versioned(edit.users) else users
  }

  /** The call passes for the reasons, and with the effect, that can be read off the book. */
  ghost predicate OnBook(users: seq<User>, call: Call, env: Env) {
    && (Passes(users, call, env) <==> Allowed(BookOf(users), call, env))
    && (Passes(users, call, env) ==> BookOf(Outcome(users, call, env)) == NewBook(BookOf(users), call, env))
  }

  lemma ReplacedValid(users: seq<User>, i: nat, u: User)
    requires Ready(users) && i < |users| && u.username == users[i].username
    requires u.passwordHash != "" && ValidRole(u.role)
    requires IsSystem(u) == IsSystem(users[i]) && (IsSystem(u) ==> IsEnabledAdmin(u))
    ensures Problem(users[i := u]).None? <==> HasAdmin(BookOf(users[i := u]))
    ensures NamesUnique(users[i := u])
  {
    hide Problem, HasAdmin, BookOf, IsSystem, IsEnabledAdmin, ValidRole, ValidUsername;
    var now := users[i := u];
    ProblemMeans(now);
    AdminsMean(now);
    AdminInBook(now);
  }

  lemma FixedStays(book: Book)
    requires forall name :: name in book ==> book[name].tokenVersion != 0
    ensures FixedBook(book) == book
  {
  }

  lemma ReadyBook(users: seq<User>)
    requires Ready(users)
    ensures forall name :: name in BookOf(users) ==> BookOf(users)[name].tokenVersion != 0
    ensures HasAdmin(BookOf(users)) && NamesUnique(users)
  {
    AdminsMean(users);
    AdminInBook(users);
    forall name | name in BookOf(users)
      ensures BookOf(users)[name].tokenVersion != 0
    {
      InBook(users, name);
    }
  }

  /** Replacing one account by another that keeps its name, seen in the book. */
  lemma ReplacedOutcome(users: seq<User>, i: nat, u: User)
    requires Ready(users) && i < |users| && u.username == users[i].username
    ensures BookOf(Versioned(users[i := u])) == BookOf(users)[u.username := FixedUser(u)]
  {
    hide BookOf, Ready, NamesUnique;
    ReadyBook(users);
    BookReplaced(users, i, u);
    BookVersioned(users[i := u]);
    FixedStays(BookOf(users));
    assert FixedBook(BookOf(users)[u.username := u]) == FixedBook(BookOf(users))[u.username := FixedUser(u)];
  }

  lemma AdminIgnoresVersion(users: seq<User>, i: nat, u: User)
    requires Ready(users) && i < |users| && u.username == users[i].username
    ensures HasAdmin(BookOf(users)[u.username := FixedUser(u)]) <==> EnabledAdmins(users[i := u]) > 0
  {
    hide BookOf, Ready, NamesUnique, HasAdmin;
    ReadyBook(users);
    ReplacedOutcome(users, i, u);
    BookReplaced(users, i, u);
    BookVersioned(users[i := u]);
    AdminInBook(Versioned(users[i := u]));
    AdminsIgnoreVersions(users[i := u], Versioned(users[i := u]));
  }

  lemma CreateMatches(users: seq<User>, name: string, password: string, role: Role, env: Env)
    requires Ready(users)
    ensures OnBook(users, Call.Create(name, password, role), env)
  {
    hide BookOf, Ready, Problem, NamesUnique, HasAdmin, ValidUsername, ValidPassword, ValidRole;
    var call := Call.Create(name, password, role);
    InBook(users, name);
    if Refused(call, env).None? && IndexOf(users, name) < 0 {
      var u := User(name, env.hash.value, role, true, env.random.value, false, false);
      ReadyBook(users);
      AddedValid(users, u);
      BookAdded(users, u);
      BookVersioned(users + [u]);
      FixedStays(NewBook(BookOf(users), call, env));
    }
  }

  lemma AddedValid(users: seq<User>, u: User)
    requires Ready(users) && IndexOf(users, u.username) < 0 && !IsSystem(u)
    requires ValidUsername(u.username) && ValidRole(u.role)
    ensures Problem(users + [u]).None? <==> u.passwordHash != ""
  {
    hide Problem, IsSystem, IsEnabledAdmin, ValidRole, ValidUsername;
    var now := users + [u];
    ProblemMeans(now);
    var i :| 0 <= i < |users| && IsEnabledAdmin(users[i]);
    assert now[i] == users[i] && now[|users|] == u;
    if u.passwordHash != "" {
      assert EachValid(now) && NamesUnique(now) && SystemSound(now) && SomeAdmin(now);
    }
  }

  lemma UpdateMatches(users: seq<User>, actor: string, name: string, patch: Patch, env: Env)
    requires Ready(users)
    ensures OnBook(users, Call.Update(actor, name, patch), env)
  {
    hide BookOf, Ready, Problem, NamesUnique, HasAdmin, EnabledAdmins, Versioned;
    var i := IndexOf(users, name);
    InBook(users, name);
    ReadyBook(users);
    if i >= 0 {
      UserFacts(users, i);
      var before := users[i];
      var u := Patched(before, patch);
      assert PatchedAccount(before, patch) == if u == before then u else FixedUser(Bumped(u));
      if u == before {
        SameEntry(BookOf(users), name);
      } else {
        AdminsIgnoreBump(users, i, u);
        AdminIgnoresVersion(users, i, Bumped(u));
        if !(Lowers(patch) && IsSystem(before)) && (patch.role.Some? ==> ValidRole(patch.role.value)) {
          PatchValid(users, i, patch);
          ReplacedOutcome(users, i, Bumped(u));
        }
      }
    }
  }

  lemma SameEntry(book: Book, name: string)
    requires name in book
    ensures book[name := book[name]] == book
  {
  }

  lemma UserFacts(users: seq<User>, i: nat)
    requires Ready(users) && i < |users|
    ensures ValidUsername(users[i].username) && users[i].passwordHash != "" && ValidRole(users[i].role)
    ensures IsSystem(users[i]) ==> IsEnabledAdmin(users[i])
    ensures users[i].tokenVersion != 0
  {
    hide ValidUsername, ValidRole, IsSystem, IsEnabledAdmin;
  }

  lemma AdminsIgnoreBump(users: seq<User>, i: nat, u: User)
    requires i < |users|
    ensures EnabledAdmins(users[i := Bumped(u)]) > 0 <==> EnabledAdmins(users[i := u]) > 0
  {
    hide EnabledAdmins;
    var a, b := users[i := u], users[i := Bumped(u)];
    AdminsMean(a);
    AdminsMean(b);
    assert forall k :: 0 <= k < |users| ==> IsEnabledAdmin(a[k]) == IsEnabledAdmin(b[k]);
  }

  lemma PatchValid(users: seq<User>, i: nat, patch: Patch)
    requires Ready(users) && i < |users| && !(Lowers(patch) && IsSystem(users[i]))
    requires patch.role.Some? ==> ValidRole(patch.role.value)
    ensures var u := Bumped(Patched(users[i], patch));
            Problem(users[i := u]).None? <==> EnabledAdmins(users[i := u]) > 0
  {
    hide Ready, Problem, NamesUnique, HasAdmin, EnabledAdmins, BookOf;
    UserFacts(users, i);
    var u := Bumped(Patched(users[i], patch));
    ReplacedValid(users, i, u);
    AdminInBook(users[i := u]);
  }

  lemma DroppedValid(users: seq<User>, i: nat)
    requires Ready(users) && i < |users|
    ensures var rest := users[..i] + users[i + 1..];
            Problem(rest).None? <==> EnabledAdmins(rest) > 0
  {
    hide Problem, IsSystem, IsEnabledAdmin, ValidRole, ValidUsername, EnabledAdmins;
    var rest := users[..i] + users[i + 1..];
    assert forall k :: 0 <= k < |rest| ==> rest[k] == users[if k < i then k else k + 1];
    ProblemMeans(rest);
    AdminsMean(rest);
    assert EachValid(rest) && NamesUnique(rest) && SystemSound(rest);
  }

  lemma DeleteMatches(users: seq<User>, actor: string, name: string, env: Env)
    requires Ready(users)
    ensures OnBook(users, Call.Delete(actor, name), env)
  {
    hide BookOf, Ready, Problem, NamesUnique, HasAdmin, EnabledAdmins, Versioned;
    var i := IndexOf(users, name);
    InBook(users, name);
    ReadyBook(users);
    if i >= 0 {
      var rest := users[..i] + users[i + 1..];
      BookDropped(users, i);
      BookVersioned(rest);
      AdminInBook(rest);
      DroppedValid(users, i);
      FixedStays(BookOf(users) - {name});
    }
  }

  /** An account that keeps its role and state may be replaced freely. */
  lemma KeptValid(users: seq<User>, i: nat, u: User)
    requires Ready(users) && i < |users| && u.username == users[i].username && u.role == users[i].role
    requires u.enabled == users[i].enabled && u.systemAccount == users[i].systemAccount
    ensures Problem(users[i := u]).None? <==> u.passwordHash != ""
  {
    hide Problem, ValidRole, ValidUsername;
    var now := users[i := u];
    ProblemMeans(now);
    var k :| 0 <= k < |users| && IsEnabledAdmin(users[k]);
    assert IsEnabledAdmin(now[k]);
    assert NamesUnique(now) && SystemSound(now);
    if u.passwordHash != "" {
      assert EachValid(now);
    } else {
      assert now[i].passwordHash == "";
    }
  }

  lemma SetPasswordMatches(users: seq<User>, name: string, password: string, after: Option<bool>, env: Env)
    requires Ready(users)
    ensures OnBook(users, Call.SetPassword(name, password, after), env)
  {
    hide BookOf, Ready, Problem, NamesUnique, HasAdmin, Versioned, ValidPassword;
    var i := IndexOf(users, name);
    InBook(users, name);
    if i >= 0 && env.hash.Some? {
      KeptValid(users, i, WithPassword(users[i], env.hash.value));
      ReplacedOutcome(users, i, WithPassword(users[i], env.hash.value));
    }
  }

  lemma RevokeMatches(users: seq<User>, name: string, env: Env)
    requires Ready(users)
    ensures OnBook(users, Call.Revoke(name), env)
  {
    hide BookOf, Ready, Problem, NamesUnique, HasAdmin, Versioned;
    var i := IndexOf(users, name);
    InBook(users, name);
    if i >= 0 {
      UserFacts(users, i);
      KeptValid(users, i, Bumped(users[i]));
      ReplacedOutcome(users, i, Bumped(users[i]));
    }
  }

  lemma AuthenticateMatches(users: seq<User>, name: string, env: Env)
    requires Ready(users)
    ensures OnBook(users, Call.Authenticate(name), env)
  {
    hide BookOf, Ready, Problem, NamesUnique, HasAdmin, Versioned;
    var i := IndexOf(users, name);
    InBook(users, name);
    if i >= 0 && env.hash.Some? {
      UserFacts(users, i);
      var u := users[i].(passwordHash := env.hash.value);
      KeptValid(users, i, u);
      ReplacedOutcome(users, i, u);
    }
  }

  lemma CallMatches(users: seq<User>, call: Call, env: Env)
    requires Ready(users)
    ensures OnBook(users, call, env)
  {
    hide OnBook, Ready;
    match call
    case Create(name, password, role) => CreateMatches(users, name, password, role, env);
    case Update(actor, name, patch) => UpdateMatches(users, actor, name, patch, env);
    case Delete(actor, name) => DeleteMatches(users, actor, name, env);
    case SetPassword(name, password, after) => SetPasswordMatches(users, name, password, after, env);
    case Revoke(name) => RevokeMatches(users, name, env);
    case Authenticate(name) => AuthenticateMatches(users, name, env);
  }

  // ---------------------------------------------------------------- the reason of a refusal

  /** The error of a call that does not pass. */
  function ErrorOf(users: seq<User>, call: Call, env: Env): Error
    requires !Passes(users, call, env)
  {
    if Refused(call, env).Some? then Refused(call, env).value
    else if Edited(users, call, env).Err? then Edited(users, call, env).error
    else Problem(Edited(users, call, env).value.users).value
  }

  lemma {:induction false} OnlyProblem(users: seq<User>, n: nat, i: nat, e: Error)
    requires i < n <= |users| && UserProblem(users, i) == Some(e)
    requires forall k :: 0 <= k < i ==> UserProblem(users, k).None?
    ensures FirstProblem(users, n) == Some(e)
  {
    FirstProblemMeans(users, i);
    FirstProblemStays(users, i + 1, n);
  }

  /** Users of whom one lacks a password. */
  lemma NoPasswordIsInvalid(users: seq<User>, now: seq<User>, i: nat)
    requires Ready(users) && i < |now| && i <= |users| && now[i].passwordHash == ""
    requires ValidUsername(now[i].username) && forall k :: 0 <= k < i ==> now[k] == users[k]
    ensures Problem(now) == Some(InvalidUser)
  {
    hide ValidUsername, ValidUsers, UserProblem, FirstProblem, EnabledAdmins;
    forall k | 0 <= k < i
      ensures UserProblem(now, k).None?
    {
      assert now[k] == users[k];
      ValidHasNoProblem(users, k);
      SameProblem(users, now, k);
    }
    NoPasswordProblem(now, i);
    OnlyProblem(now, |now|, i, InvalidUser);
  }

  lemma NoPasswordProblem(users: seq<User>, i: nat)
    requires i < |users| && ValidUsername(users[i].username) && users[i].passwordHash == ""
    ensures UserProblem(users, i) == Some(InvalidUser)
  {
    hide ValidUsername;
  }

  lemma SameProblem(users: seq<User>, now: seq<User>, k: nat)
    requires k < |users| && k < |now| && forall j :: 0 <= j <= k ==> now[j] == users[j]
    ensures UserProblem(now, k) == UserProblem(users, k)
  {
    hide ValidUsername, ValidRole;
  }

  lemma CreateReason(users: seq<User>, name: string, password: string, role: Role, env: Env)
    requires Ready(users) && !Passes(users, Call.Create(name, password, role), env)
    ensures Some(ErrorOf(users, Call.Create(name, password, role), env))
            == Reason(BookOf(users), Call.Create(name, password, role), env)
  {
    hide BookOf, Ready, Problem, HasAdmin, ValidUsername, ValidPassword, ValidRole;
    InBook(users, name);
    if Refused(Call.Create(name, password, role), env).None? && IndexOf(users, name) < 0 {
      var u := User(name, env.hash.value, role, true, env.random.value, false, false);
      AddedValid(users, u);
      NoPasswordIsInvalid(users, users + [u], |users|);
    }
  }

  lemma UpdateReason(users: seq<User>, actor: string, name: string, patch: Patch, env: Env)
    requires Ready(users) && !Passes(users, Call.Update(actor, name, patch), env)
    ensures Some(ErrorOf(users, Call.Update(actor, name, patch), env))
            == Reason(BookOf(users), Call.Update(actor, name, patch), env)
  {
    hide BookOf, Ready, Problem, NamesUnique, HasAdmin, EnabledAdmins, Patched, ValidRole, PatchedAccount;
    var call := Call.Update(actor, name, patch);
    InBook(users, name);
    UpdateMatches(users, actor, name, patch, env);
    ReasonIff(BookOf(users), call, env);
    if IndexOf(users, name) >= 0 {
      UpdateStores(users, IndexOf(users, name), patch);
    }
  }

  lemma DeleteReason(users: seq<User>, actor: string, name: string, env: Env)
    requires Ready(users) && !Passes(users, Call.Delete(actor, name), env)
    ensures Some(ErrorOf(users, Call.Delete(actor, name), env))
            == Reason(BookOf(users), Call.Delete(actor, name), env)
  {
    hide BookOf, Ready, Problem, NamesUnique, HasAdmin, EnabledAdmins;
    InBook(users, name);
    DeleteMatches(users, actor, name, env);
    ReasonIff(BookOf(users), Call.Delete(actor, name), env);
    if IndexOf(users, name) >= 0 {
      DroppedValid(users, IndexOf(users, name));
    }
  }

  lemma RevokeReason(users: seq<User>, name: string, env: Env)
    requires Ready(users) && !Passes(users, Call.Revoke(name), env)
    ensures Some(ErrorOf(users, Call.Revoke(name), env)) == Reason(BookOf(users), Call.Revoke(name), env)
  {
    hide BookOf, Ready, Problem;
    InBook(users, name);
    RevokeMatches(users, name, env);
  }

  /** An update that gets past its guards can be stored. */
  lemma UpdateStores(users: seq<User>, i: nat, patch: Patch)
    requires Ready(users) && i < |users|
    ensures var u := Patched(users[i], patch);
            (&& !(Lowers(patch) && users[i].systemAccount) && (patch.role.Some? ==> ValidRole(patch.role.value))
             && EnabledAdmins(users[i := u]) > 0) ==>
              Problem(users[i := Bumped(u)]).None?
  {
    hide Ready, Problem, EnabledAdmins;
    var u := Patched(users[i], patch);
    AdminsIgnoreBump(users, i, u);
    if !(Lowers(patch) && IsSystem(users[i])) && (patch.role.Some? ==> ValidRole(patch.role.value)) {
      PatchValid(users, i, patch);
    }
  }

  lemma PasswordReason(users: seq<User>, call: Call, env: Env)
    requires Ready(users) && !Passes(users, call, env) && (call.SetPassword? || call.Authenticate?)
    ensures Some(ErrorOf(users, call, env)) == Reason(BookOf(users), call, env)
  {
    hide BookOf, Ready, Problem, NamesUnique, HasAdmin, EnabledAdmins, ValidPassword;
    var i := IndexOf(users, call.username);
    InBook(users, call.username);
    if i >= 0 && env.hash.Some? {
      UserFacts(users, i);
      var u := if call.SetPassword? then WithPassword(users[i], env.hash.value)
               else FixedUser(users[i].(passwordHash := env.hash.value));
      KeptValid(users, i, u);
      if env.hash.value == "" {
        NoPasswordIsInvalid(users, users[i := u], i);
      }
    }
  }

  lemma RefusalHasItsReason(users: seq<User>, call: Call, env: Env)
    requires Ready(users) && !Passes(users, call, env)
    ensures Some(ErrorOf(users, call, env)) == Reason(BookOf(users), call, env)
  {
    hide Ready, ErrorOf, Reason;
    match call
    case Create(name, password, role) => CreateReason(users, name, password, role, env);
    case SetPassword(_, _, _) => PasswordReason(users, call, env);
    case Authenticate(_) => PasswordReason(users, call, env);
    case Update(actor, name, patch) => UpdateReason(users, actor, name, patch, env);
    case Delete(actor, name) => DeleteReason(users, actor, name, env);
    case Revoke(name) => RevokeReason(users, name, env);
  }

  // ---------------------------------------------------------------- on files

  lemma LoadedIsReady(file: File, env: Env)
    requires LoadedForWrite(file, env).Ok?
    ensures Ready(LoadedForWrite(file, env).value) && Loaded(file, env) == LoadedForWrite(file, env)
  {
    hide Problem, ValidUsers, Loaded, LoadedForWrite;
    LoadingKeeps(file, env);
    var users := LoadedForWrite(file, env).value;
    ProblemMeans(users);
    assert forall i :: 0 <= i < |users| ==> Versioned(users)[i] == FixedUser(users[i]);
  }

  /** A file that can be read, and written if it is not a database yet, and a save that works. */
  predicate Works(file: File, call: Call, env: Env) {
    LoadedForWrite(file, env).Ok? && env.commit == Done && !AfterFails(call)
  }

  /** The store is a book of accounts: where files can be read and written, a call succeeds exactly if
      the book allows it, turns the book into the new book, and leaves it alone otherwise. */
  lemma StoreIsABook(file: File, call: Call, env: Env)
    requires Works(file, call, env)
    ensures Shown(file, env).Some?
    ensures var book, r := Shown(file, env).value, ResultOf(file, call, env);
            && (r.Ok? <==> Allowed(book, call, env))
            && (r.Err? ==> Some(r.error) == Reason(book, call, env))
            && Shown(FileAfter(file, call, env), env)
               == Some(if Allowed(book, call, env) then NewBook(book, call, env) else book)
  {
    hide Problem, Loaded, LoadedForWrite, Edited, Refused, Allowed, Reason, NewBook, BookOf, Ready, Versioned,
        FileAfterLoad, FileAfterSave, Stored;
    var users := LoadedForWrite(file, env).value;
    LoadedIsReady(file, env);
    CallMatches(users, call, env);
    LoadingKeeps(file, env);
    if Passes(users, call, env) {
      if Edited(users, call, env).value.Changed? {
        SavedLoads(FileAfterLoad(file, env), Edited(users, call, env).value.users, env.commit, env);
      }
    } else {
      RefusalHasItsReason(users, call, env);
      ErrorsKeepTheUsers(file, call, env);
    }
  }

  lemma IntendedBook(file: File, call: Call, env: Env)
    requires Intended(file, call, env).Some?
    ensures Shown(file, env).Some? && Allowed(Shown(file, env).value, call, env)
    ensures BookOf(Intended(file, call, env).value) == NewBook(Shown(file, env).value, call, env)
  {
    hide Problem, Loaded, LoadedForWrite, Edited, Refused, Allowed, NewBook, BookOf, Ready, Versioned;
    LoadedIsReady(file, env);
    CallMatches(LoadedForWrite(file, env).value, call, env);
  }

  /** Whatever fails on the way, the file shows the old book or the new one, and the new one only if
      the call was allowed. */
  lemma OldBookOrNew(file: File, call: Call, env: Env)
    ensures Shown(FileAfter(file, call, env), env) == Shown(file, env)
            || (Shown(file, env).Some? && Allowed(Shown(file, env).value, call, env)
                && Shown(FileAfter(file, call, env), env) == Some(NewBook(Shown(file, env).value, call, env)))
  {
    hide Loaded, Allowed, NewBook, BookOf, FileAfter, ResultOf, Intended;
    if Intended(file, call, env).Some? {
      IntendedBook(file, call, env);
      if ResultOf(file, call, env).Ok? {
        SuccessStores(file, call, env);
      } else {
        ErrorsKeepTheUsers(file, call, env);
      }
    } else if ResultOf(file, call, env).Err? {
      ErrorsKeepTheUsers(file, call, env);
    } else {
      NothingIntended(file, call, env);
    }
  }

  lemma NothingIntended(file: File, call: Call, env: Env)
    requires Intended(file, call, env).None? && ResultOf(file, call, env).Ok?
    ensures Loaded(FileAfter(file, call, env), env) == Loaded(file, env)
  {
    hide Problem, Loaded, Edited, Refused, FileAfterLoad, LoadedForWrite, FileAfterSave, Stored;
    LoadingKeeps(file, env);
  }

  /** Whom a call that passes returns. */
  function ReturnedBy(users: seq<User>, call: Call, env: Env): Option<User>
    requires Passes(users, call, env)
  {
    match Edited(users, call, env).value
    case Declined => None
    case Unchanged(u) => Some(u)
    case Changed(now, i) => if 0 <= i < |now| then Some(FixedUser(now[i])) else None
  }

  lemma ReturnsTheEntry(users: seq<User>, call: Call, env: Env)
    requires Ready(users) && Passes(users, call, env)
    ensures ReturnedBy(users, call, env) == Returned(BookOf(users), call, env)
  {
    hide Problem, NewBook, BookOf, Ready, Allowed, EnabledAdmins, IndexOf, ValidUsername, ValidPassword, ValidRole;
    CallMatches(users, call, env);
    if !call.Create? && !call.Delete? {
      InBook(users, call.username);
      OutcomeName(users, call, env);
      InBook(Outcome(users, call, env), call.username);
    }
  }

  /** The user a call returns, if any, is the account that it leaves in the book. */
  lemma ReturnsTheAccount(file: File, call: Call, env: Env)
    requires ResultOf(file, call, env).Ok?
    ensures Shown(file, env).Some?
    ensures ResultOf(file, call, env).value == Returned(Shown(file, env).value, call, env)
  {
    hide Problem, Loaded, LoadedForWrite, Edited, Refused, Returned, BookOf, Ready;
    LoadedIsReady(file, env);
    ReturnsTheEntry(LoadedForWrite(file, env).value, call, env);
  }

  /** A call on one account leaves it where it was. */
  lemma OutcomeName(users: seq<User>, call: Call, env: Env)
    requires Ready(users) && Passes(users, call, env) && !call.Create? && !call.Delete?
    ensures IndexOf(Outcome(users, call, env), call.username) == IndexOf(users, call.username)
  {
    hide Ready, Problem, EnabledAdmins;
    var now, i := Outcome(users, call, env), IndexOf(users, call.username);
    assert |now| == |users| && forall k :: 0 <= k < |users| ==> now[k].username == users[k].username;
  }

  // ---------------------------------------------------------------- signing in

  lemma UnderOwnName(file: File, env: Env, name: string)
    requires Shown(file, env).Some? && name in Shown(file, env).value
    ensures Shown(file, env).value[name].username == name
  {
    InBook(Loaded(file, env).value, name);
  }

  /** Only the password of an enabled account of that name signs in; a wrong one, an unknown and a
      disabled name are answered with nobody and change nothing; and only an old-style password changes
      anything, namely the hash of that account. */
  lemma AuthenticateAnswers(file: File, name: string, env: Env)
    ensures var r := ResultOf(file, Call.Authenticate(name), env);
            r.Ok? && r.value.Some? ==>
              && Shown(file, env).Some? && name in Shown(file, env).value && Shown(file, env).value[name].enabled
              && env.verdict != Wrong && r.value.value.username == name
    ensures var r, book := ResultOf(file, Call.Authenticate(name), env), Shown(file, env);
            LoadedForWrite(file, env).Ok? && book.Some? ==>
              && (env.verdict == Wrong || name !in book.value || !book.value[name].enabled ==> r == Ok(None))
              && (env.verdict == Match.Matches && name in book.value && book.value[name].enabled ==>
                    r == Ok(Some(book.value[name])))
    ensures var after := Shown(FileAfter(file, Call.Authenticate(name), env), env);
            after != Shown(file, env) ==>
              && Shown(file, env).Some? && env.verdict == MatchesLegacy && env.hash.Some?
              && var book := Shown(file, env).value;
                 name in book && book[name].enabled
                 && after == Some(book[name := book[name].(passwordHash := env.hash.value)])
  {
    hide Shown, Loaded, LoadedForWrite, FileAfter, ResultOf;
    var call := Call.Authenticate(name);
    OldBookOrNew(file, call, env);
    if ResultOf(file, call, env).Ok? {
      ReturnsTheAccount(file, call, env);
      if name in Shown(file, env).value {
        UnderOwnName(file, env, name);
      }
    }
    if LoadedForWrite(file, env).Ok? {
      AuthenticateEnds(file, name, env);
    }
  }

  /** A sign-in that has to store nothing has no way to fail. */
  lemma AuthenticateEnds(file: File, name: string, env: Env)
    requires LoadedForWrite(file, env).Ok?
    ensures Shown(file, env).Some?
    ensures var book := Shown(file, env).value;
            (name in book && book[name].enabled ==> env.verdict != MatchesLegacy) ==>
              ResultOf(file, Call.Authenticate(name), env).Ok?
  {
    hide Loaded, LoadedForWrite, FileAfterLoad, FileAfterSave;
    LoadedIsReady(file, env);
    InBook(LoadedForWrite(file, env).value, name);
  }

  /** A token is accepted exactly if it has the current version of an enabled account. */
  lemma TokenAcceptedIff(file: File, env: Env, name: string, version: uint64)
    ensures TokenCheck(file, env, name, version).Ok? <==>
              && Shown(file, env).Some? && name in Shown(file, env).value
              && Shown(file, env).value[name].enabled && Shown(file, env).value[name].tokenVersion == version
    ensures TokenCheck(file, env, name, version).Ok? ==>
              TokenCheck(file, env, name, version).value == Shown(file, env).value[name]
  {
    hide Loaded;
    if Loaded(file, env).Ok? {
      InBook(Loaded(file, env).value, name);
    }
  }

  /** A call on a sound file, on its book. */
  lemma SoundBookStep(file: File, call: Call, env: Env)
    requires Sound(file)
    ensures Sound(FileAfter(file, call, env))
    ensures FileAfter(file, call, env) == file
            || (Allowed(BookOf(file.users), call, env)
                && BookOf(FileAfter(file, call, env).users) == NewBook(BookOf(file.users), call, env))
  {
    hide Problem, FileAfter, Edited, Refused, Allowed, NewBook, BookOf, ValidUsers, Versioned;
    SoundStep(file, call, env);
    AnyStep(file, call, env);
    CallMatches(file.users, call, env);
  }

  /** The calls that void the tokens of an account when they are allowed and change something. */
  predicate Voids(call: Call, name: string) {
    !call.Create? && !call.Authenticate? && call.username == name
  }

  lemma TokenKept(book: Book, call: Call, env: Env, name: string)
    requires Allowed(book, call, env) && name in book && !Voids(call, name)
    ensures name in NewBook(book, call, env)
    ensures NewBook(book, call, env)[name].(passwordHash := book[name].passwordHash) == book[name]
  {
  }

  /** A token stays good: as long as nobody updates, deletes or revokes the account or sets its
      password, the version that was current is accepted, whatever else happens to the store. */
  lemma {:induction false} TokensStayGood(files: seq<File>, steps: seq<AccountTheorems.Step>, name: string, i: nat,
      j: nat, env: Env, version: uint64)
    requires IsRun(files, steps) && i <= j < |files| && Sound(files[i]) && env.readable
    requires TokenCheck(files[i], env, name, version).Ok?
    requires forall k :: i <= k < j ==> !Voids(steps[k].call, name)
    ensures Sound(files[j]) && TokenCheck(files[j], env, name, version).Ok?
    decreases j
  {
    hide Sound, FileAfter, TokenCheck, Allowed, NewBook, BookOf, Loaded;
    TokenAcceptedIff(files[j], env, name, version);
    if i < j {
      TokensStayGood(files, steps, name, i, j - 1, env, version);
      TokenAcceptedIff(files[j - 1], env, name, version);
      SoundBookStep(files[j - 1], steps[j - 1].call, steps[j - 1].env);
      ShownSound(files[j - 1], env);
      ShownSound(files[j], env);
      if files[j] != files[j - 1] {
        TokenKept(BookOf(files[j - 1].users), steps[j - 1].call, steps[j - 1].env, name);
      }
    }
  }

  lemma ShownSound(file: File, env: Env)
    requires Sound(file) && env.readable
    ensures file.Database? && Shown(file, env) == Some(BookOf(file.users))
  {
    SoundLoads(file, env);
  }
}
