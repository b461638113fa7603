/**
 The account store: a file that holds the users, and operations that load it, edit the users and
 save them again.

 `Env` is everything the store does not decide: whether the file can be read, hashes, random token
 versions, and how each save ends. A save that fails after the new file was put in place has
 replaced the users all the same.
 */
module Accounts {
  import opened Wrappers
  import Text

  const UINT64 := 0x1_0000_0000_0000_0000

  type uint64 = x: int | 0 <= x < UINT64

  /** A random token version is drawn again if it is zero or all ones. */
  type FreshVersion = x: int | 0 < x < UINT64 - 1 witness 1

  datatype Role = Admin | Regular | OtherRole(name: string)

  datatype User = User(
    username: string, passwordHash: string, role: Role, enabled: bool,
    tokenVersion: uint64, mustChangePassword: bool, systemAccount: bool)

  datatype File =
    | Missing
    | Garbage
    | Legacy(username: string, password: string)
    | Database(version: int, users: seq<User>)

  datatype Error =
    | InvalidUsername | InvalidPassword | InvalidRole | NoHash | NoEntropy
    | CannotRead | InvalidFile | UnsupportedVersion | NoUsers | InvalidUser | DuplicateUsername
    | UserExists | UserNotFound | LastAdmin | SelfModification | SelfDelete | SystemAccount
    | SaveFailed | AfterCommitFailed | RollbackFailed | SessionRevoked

  datatype SaveOutcome = Done | FailedBefore | FailedAfter

  datatype Match = Wrong | Matches | MatchesLegacy

  datatype Env = Env(
    readable: bool, hash: Option<string>, random: Option<FreshVersion>,
    defaultHash: Option<string>, initial: Option<FreshVersion>, legacyIsDefault: bool,
    verdict: Match, migration: SaveOutcome, commit: SaveOutcome, rollback: SaveOutcome)

  const CURRENT_VERSION := 1
  const DEFAULT_USERNAME := "admin"

  // ---------------------------------------------------------------- names, passwords, versions

  predicate IsAlphanumeric(c: char) {
    'A' <= c <= 'Z' || 'a' <= c <= 'z' || '0' <= c <= '9'
  }

  predicate ValidUsername(name: string) {
    && 1 <= |name| <= 32 && IsAlphanumeric(name[0])
    && forall c :: c in name ==> IsAlphanumeric(c) || c in {'_', '.', '-'}
  }

  predicate ValidPassword(password: string) {
    8 <= Text.Utf8Size(password) <= 72
  }

  predicate ValidRole(role: Role) {
    !role.OtherRole?
  }

  function Increment(v: uint64): uint64 {
    (v + 1) % UINT64
  }

  /** What validation makes of a version. */
  function Fixed(v: uint64): uint64 {
    if v == 0 then 1 else v
  }

  function FixedUser(u: User): User {
    u.(tokenVersion := Fixed(u.tokenVersion))
  }

  function Versioned(users: seq<User>): (r: seq<User>)
    ensures |r| == |users| && forall i :: 0 <= i < |r| ==> r[i] == FixedUser(users[i])
  {
    seq(|users|, i requires 0 <= i < |users| => FixedUser(users[i]))
  }

  // ---------------------------------------------------------------- looking at users

  /** The first user of that name, or -1. */
  function IndexOf(users: seq<User>, name: string): (i: int)
    ensures -1 <= i < |users|
    ensures i >= 0 ==> users[i].username == name
    ensures forall k :: 0 <= k < (if i < 0 then |users| else i) ==> users[k].username != name
  {
    if users == [] then -1
    else
      var before := IndexOf(users[..|users| - 1], name);
      if before >= 0 then before
      else if users[|users| - 1].username == name then |users| - 1
      else -1
  }

  predicate IsEnabledAdmin(u: User) {
    u.role == Admin && u.enabled
  }

  function EnabledAdmins(users: seq<User>): nat {
    if users == [] then 0
    else EnabledAdmins(users[..|users| - 1]) + if IsEnabledAdmin(users[|users| - 1]) then 1 else 0
  }

  predicate IsSystem(u: User) {
    u.systemAccount
  }

  /** What is wrong with user k, given the users before it. */
  function UserProblem(users: seq<User>, k: nat): Option<Error>
    requires k < |users|
  {
    var u := users[k];
    if !ValidUsername(u.username) then Some(InvalidUsername)
    else if u.passwordHash == "" || !ValidRole(u.role) then Some(InvalidUser)
    else if exists j :: 0 <= j < k && users[j].username == u.username then Some(DuplicateUsername)
    else if IsSystem(u) && (!IsEnabledAdmin(u) || exists j :: 0 <= j < k && IsSystem(users[j])) then Some(SystemAccount)
    else None
  }

  function FirstProblem(users: seq<User>, n: nat): Option<Error>
    requires n <= |users|
  {
    if n == 0 then None
    else
      var before := FirstProblem(users, n - 1);
      if before.Some? then before else UserProblem(users, n - 1)
  }

  function Problem(users: seq<User>): Option<Error> {
    if users == [] then Some(NoUsers)
    else if FirstProblem(users, |users|).Some? then FirstProblem(users, |users|)
    else if EnabledAdmins(users) == 0 then Some(LastAdmin)
    else None
  }

  // ---------------------------------------------------------------- loading and saving

  function DefaultUser(hash: string, version: FreshVersion): User {
    User(DEFAULT_USERNAME, hash, Admin, true, version, true, true)
  }

  function LegacyUser(name: string, hash: string, version: FreshVersion, isDefault: bool): User {
    User(name, hash, Admin, true, version, isDefault, true)
  }

  /** The users a file stands for. */
  function Loaded(file: File, env: Env): Result<seq<User>, Error> {
    if !env.readable then Err(CannotRead)
    else
      match file
      case Missing =>
        if env.defaultHash.None? then Err(NoHash)
        else if env.initial.None? then Err(NoEntropy)
        else Ok([DefaultUser(env.defaultHash.value, env.initial.value)])
      case Garbage => Err(InvalidFile)
      case Legacy(name, hash) =>
        if name == "" || hash == "" then Err(InvalidFile)
        else if !ValidUsername(name) then Err(InvalidUsername)
        else if env.initial.None? then Err(NoEntropy)
        else Ok([LegacyUser(name, hash, env.initial.value, env.legacyIsDefault)])
      case Database(version, users) =>
        if version != CURRENT_VERSION then Err(UnsupportedVersion)
        else if Problem(users).Some? then Err(Problem(users).value)
        else Ok(Versioned(users))
  }

  function Stored(users: seq<User>): File {
    Database(CURRENT_VERSION, Versioned(users))
  }

  function FileAfterSave(file: File, users: seq<User>, outcome: SaveOutcome): File {
    if Problem(users).Some? || outcome == FailedBefore then file else Stored(users)
  }

  function SaveError(users: seq<User>, outcome: SaveOutcome): Option<Error> {
    if Problem(users).Some? then Problem(users) else if outcome == Done then None else Some(SaveFailed)
  }

  /** Loading for an operation that will write: what is not yet a database becomes one. */
  function FileAfterLoad(file: File, env: Env): File {
    var users := Loaded(file, env);
    if users.Err? || file.Database? then file else FileAfterSave(file, users.value, env.migration)
  }

  function LoadedForWrite(file: File, env: Env): Result<seq<User>, Error> {
    var users := Loaded(file, env);
    if users.Err? || file.Database? then users
    else if SaveError(users.value, env.migration).Some? then Err(SaveError(users.value, env.migration).value)
    else Ok(Versioned(users.value))
  }

  // ---------------------------------------------------------------- the operations

  datatype Patch = Patch(role: Option<Role>, enabled: Option<bool>)

  /** `after` is the outcome of the system-side update that follows a password change, if there is one. */
  datatype Call =
    | Create(username: string, password: string, role: Role)
    | Update(actor: string, username: string, patch: Patch)
    | Delete(actor: string, username: string)
    | SetPassword(username: string, password: string, after: Option<bool>)
    | Revoke(username: string)
    | Authenticate(username: string)

  /** The checks made before the file is read. */
  function Refused(call: Call, env: Env): Option<Error> {
    match call
    case Create(name, password, role) =>
      if !ValidUsername(name) then Some(InvalidUsername)
      else if !ValidPassword(password) then Some(InvalidPassword)
      else if !ValidRole(role) then Some(InvalidRole)
      else if env.hash.None? then Some(NoHash)
      else if env.random.None? then Some(NoEntropy)
      else None
    case SetPassword(_, password, _) =>
      if !ValidPassword(password) then Some(InvalidPassword) else if env.hash.None? then Some(NoHash) else None
    case Delete(actor, name) => if actor == name then Some(SelfDelete) else None
    case _ => None
  }

  /** What a call makes of the users: nothing to save and nobody or somebody to return, or the new
      users and whom to return. */
  datatype Edit = Declined | Unchanged(user: User) | Changed(users: seq<User>, index: int)

  function Patched(u: User, patch: Patch): User {
    u.(role := if patch.role.Some? then patch.role.value else u.role,
       enabled := if patch.enabled.Some? then patch.enabled.value else u.enabled)
  }

  predicate Demotes(patch: Patch) {
    (patch.role.Some? && patch.role.value != Admin) || (patch.enabled.Some? && !patch.enabled.value)
  }

  function EditUpdate(users: seq<User>, actor: string, name: string, patch: Patch): Result<Edit, Error> {
    var i := IndexOf(users, name);
    if i < 0 then Err(UserNotFound)
    else if patch.role.Some? && !ValidRole(patch.role.value) then Err(InvalidRole)
    else if actor == name && users[i].role == Admin && Demotes(patch) then Err(SelfModification)
    else if users[i].systemAccount && Demotes(patch) then Err(SystemAccount)
    else
      var u := Patched(users[i], patch);
      if u == users[i] then Ok(Unchanged(u))
      else if EnabledAdmins(users[i := u]) == 0 then Err(LastAdmin)
      else Ok(Changed(users[i := u.(tokenVersion := Increment(u.tokenVersion))], i))
  }

  function EditDelete(users: seq<User>, name: string): Result<Edit, Error> {
    var i := IndexOf(users, name);
    if i < 0 then Err(UserNotFound)
    else if users[i].systemAccount then Err(SystemAccount)
    else
      var rest := users[..i] + users[i + 1..];
      if EnabledAdmins(rest) == 0 then Err(LastAdmin) else Ok(Changed(rest, -1))
  }

  function EditOne(users: seq<User>, name: string, change: User -> User): Result<Edit, Error> {
    var i := IndexOf(users, name);
    if i < 0 then Err(UserNotFound) else Ok(Changed(users[i := change(users[i])], i))
  }

  function Bumped(u: User): User {
    u.(tokenVersion := Increment(u.tokenVersion))
  }

  function WithPassword(u: User, hash: string): User {
    u.(passwordHash := hash, mustChangePassword := false, tokenVersion := Increment(u.tokenVersion))
  }

  function EditAuthenticate(users: seq<User>, name: string, env: Env): Result<Edit, Error> {
    var i := IndexOf(users, name);
    if i < 0 || !users[i].enabled then Ok(Declined)
    else
      match env.verdict
      case Matches => Ok(Unchanged(users[i]))
      case Wrong => Ok(Declined)
      case MatchesLegacy =>
        if env.hash.None? then Err(NoHash)
        else Ok(Changed(users[i := FixedUser(users[i].(passwordHash := env.hash.value))], i))
  }

  function Edited(users: seq<User>, call: Call, env: Env): Result<Edit, Error>
    requires Refused(call, env).None?
  {
    match call
    case Create(name, _, role) =>
      if IndexOf(users, name) >= 0 then Err(UserExists)
      else Ok(Changed(users + [User(name, env.hash.value, role, true, env.random.value, false, false)], -1))
    case Update(actor, name, patch) => EditUpdate(users, actor, name, patch)
    case Delete(_, name) => EditDelete(users, name)
    case SetPassword(name, _, _) => EditOne(users, name, u => WithPassword(u, env.hash.value))
    case Revoke(name) => EditOne(users, name, u => Bumped(u))
    case Authenticate(name) => EditAuthenticate(users, name, env)
  }

  predicate AfterFails(call: Call) {
    call.SetPassword? && call.after == Some(false)
  }

  /** The file after a call. */
  function FileAfter(file: File, call: Call, env: Env): File {
    if Refused(call, env).Some? then file
    else
      var ready, users := FileAfterLoad(file, env), LoadedForWrite(file, env);
      if users.Err? then ready
      else
        var edit := Edited(users.value, call, env);
        if edit.Err? || !edit.value.Changed? then ready
        else
          var saved := FileAfterSave(ready, edit.value.users, env.commit);
          if SaveError(edit.value.users, env.commit).Some? || !AfterFails(call) then saved
          else FileAfterSave(saved, users.value, env.rollback)
  }

  /** The result of a call. */
  function ResultOf(file: File, call: Call, env: Env): Result<Option<User>, Error> {
    if Refused(call, env).Some? then Err(Refused(call, env).value)
    else
      var users := LoadedForWrite(file, env);
      if users.Err? then Err(users.error)
      else
        var edit := Edited(users.value, call, env);
        if edit.Err? then Err(edit.error)
        else
          match edit.value
          case Declined => Ok(None)
          case Unchanged(u) => Ok(Some(u))
          case Changed(now, i) =>
            if SaveError(now, env.commit).Some? then Err(SaveError(now, env.commit).value)
            else if AfterFails(call) then
              Err(if SaveError(users.value, env.rollback).Some? then RollbackFailed else AfterCommitFailed)
            else if 0 <= i < |now| then Ok(Some(FixedUser(now[i])))
            else Ok(None)
  }

  function TokenCheck(file: File, env: Env, name: string, version: uint64): Result<User, Error> {
    var users := Loaded(file, env);
    if users.Err? then Err(users.error)
    else
      var i := IndexOf(users.value, name);
      if i < 0 then Err(UserNotFound)
      else if !users.value[i].enabled || users.value[i].tokenVersion != version then Err(SessionRevoked)
      else Ok(users.value[i])
  }

  // ---------------------------------------------------------------- the store

  method EnabledAdminCount(users: seq<User>) returns (count: nat)
    ensures count == EnabledAdmins(users)
  {
    count := 0;
    for i := 0 to |users|
      invariant count == EnabledAdmins(users[..i])
    {
      assert users[..i + 1][..i] == users[..i];
      if users[i].role == Admin && users[i].enabled {
        count := count + 1;
      }
    }
    assert users[..|users|] == users;
  }

  method UserIndex(users: seq<User>, name: string) returns (index: int)
    ensures index == IndexOf(users, name)
  {
    for i := 0 to |users|
      invariant forall k :: 0 <= k < i ==> users[k].username != name
    {
      if users[i].username == name {
        return i;
      }
    }
    return -1;
  }

  lemma {:induction false} FirstProblemStays(users: seq<User>, n: nat, m: nat)
    requires n <= m <= |users| && FirstProblem(users, n).Some?
    ensures FirstProblem(users, m) == FirstProblem(users, n)
  {
    if n < m {
      FirstProblemStays(users, n, m - 1);
    }
  }

  lemma {:induction false} ProblemsIgnoreVersions(users: seq<User>, now: seq<User>, n: nat)
    requires n <= |users| == |now|
    requires forall i :: 0 <= i < |users| ==> FixedUser(now[i]) == FixedUser(users[i])
    ensures FirstProblem(now, n) == FirstProblem(users, n)
  {
    if n > 0 {
      ProblemsIgnoreVersions(users, now, n - 1);
      assert forall i :: 0 <= i < |users| ==>
          FixedUser(now[i]).username == FixedUser(users[i]).username
              && FixedUser(now[i]).systemAccount == FixedUser(users[i]).systemAccount;
      assert FixedUser(now[n - 1]).role == FixedUser(users[n - 1]).role
          && FixedUser(now[n - 1]).enabled == FixedUser(users[n - 1]).enabled
             && FixedUser(now[n - 1]).passwordHash == FixedUser(users[n - 1]).passwordHash;
    }
  }

  lemma {:induction false} AdminsIgnoreVersions(users: seq<User>, now: seq<User>)
    requires |users| == |now|
    requires forall i :: 0 <= i < |users| ==> FixedUser(now[i]) == FixedUser(users[i])
    ensures EnabledAdmins(now) == EnabledAdmins(users)
  {
    if users != [] {
      AdminsIgnoreVersions(users[..|users| - 1], now[..|now| - 1]);
      assert FixedUser(now[|now| - 1]).role == FixedUser(users[|users| - 1]).role
             && FixedUser(now[|now| - 1]).enabled == FixedUser(users[|users| - 1]).enabled;
    }
  }

  /** What validation has gathered from the first n users. */
  ghost predicate Gathered(users: seq<User>, n: nat, seen: set<string>, systemAccounts: nat) {
    && n <= |users| && FirstProblem(users, n).None?
    && (forall name :: name in seen <==> exists j :: 0 <= j < n && users[j].username == name)
    && systemAccounts == if exists j :: 0 <= j < n && IsSystem(users[j]) then 1 else 0
  }

  lemma NextProblem(users: seq<User>, n: nat, seen: set<string>, systemAccounts: nat)
    requires Gathered(users, n, seen, systemAccounts) && n < |users|
    ensures var u := users[n];
            UserProblem(users, n) ==
              if !ValidUsername(u.username) then Some(InvalidUsername)
              else if u.passwordHash == "" || !ValidRole(u.role) then Some(InvalidUser)
              else if u.username in seen then Some(DuplicateUsername)
              else if u.systemAccount && (u.role != Admin || !u.enabled || systemAccounts == 1) then Some(SystemAccount)
              else None
    ensures UserProblem(users, n).Some? ==> FirstProblem(users, |users|) == UserProblem(users, n)
    ensures UserProblem(users, n).None? ==>
              Gathered(users, n + 1, seen + {users[n].username}, if users[n].systemAccount then 1 else systemAccounts)
  {
    hide ValidUsername, ValidRole;
    if UserProblem(users, n).Some? {
      FirstProblemStays(users, n + 1, |users|);
    }
  }

  /** validateDatabase: finds the first problem, and gives every user a version on the way. */
  method Validate(version: int, given: seq<User>) returns (users: seq<User>, problem: Option<Error>)
    ensures problem == if version != CURRENT_VERSION then Some(UnsupportedVersion) else Problem(given)
    ensures problem.None? ==> users == Versioned(given)
  {
    hide UserProblem, FirstProblem, EnabledAdmins, Gathered, ValidUsername, ValidRole;
    users := given;
    if version != CURRENT_VERSION {
      return users, Some(UnsupportedVersion);
    }
    if |users| == 0 {
      return users, Some(NoUsers);
    }
    var seen: set<string>, systemAccounts: nat := {}, 0;
    NothingGathered(given);
    for index := 0 to |users|
      invariant |users| == |given| && systemAccounts <= 1
      invariant forall i :: 0 <= i < |users| ==> users[i] == if i < index then FixedUser(given[i]) else given[i]
      invariant Gathered(given, index, seen, systemAccounts)
    {
      var user := users[index];
      NextProblem(given, index, seen, systemAccounts);
      if !ValidUsername(user.username) {
        return users, Some(InvalidUsername);
      }
      if user.passwordHash == "" || !ValidRole(user.role) {
        return users, Some(InvalidUser);
      }
      if user.username in seen {
        return users, Some(DuplicateUsername);
      }
      seen := seen + {user.username};
      if user.tokenVersion == 0 {
        users := users[index := user.(tokenVersion := 1)];
      }
      if user.systemAccount {
        systemAccounts := systemAccounts + 1;
        if user.role != Admin || !user.enabled || systemAccounts > 1 {
          return users, Some(SystemAccount);
        }
      }
    }
    AllGathered(given, seen, systemAccounts);
    AdminsIgnoreVersions(given, users);
    var admins := EnabledAdminCount(users);
    if admins == 0 {
      return users, Some(LastAdmin);
    }
    return users, None;
  }

  lemma NothingGathered(users: seq<User>)
    ensures Gathered(users, 0, {}, 0)
  {
  }

  lemma AllGathered(users: seq<User>, seen: set<string>, systemAccounts: nat)
    requires Gathered(users, |users|, seen, systemAccounts)
    ensures FirstProblem(users, |users|).None?
  {
  }

  /** The part of Update that edits the copied user. */
  method ApplyPatch(given: User, patch: Patch) returns (user: User, changed: bool)
    ensures user == Patched(given, patch) && (changed <==> user != given)
  {
    user, changed := given, false;
    if patch.role.Some? && user.role != patch.role.value {
      user := user.(role := patch.role.value);
      changed := true;
    }
    if patch.enabled.Some? && user.enabled != patch.enabled.value {
      user := user.(enabled := patch.enabled.value);
      changed := true;
    }
  }

  /** The part of Update between loading and saving. */
  method UpdateUser(given: seq<User>, actor: string, name: string, patch: Patch) returns (r: Result<Edit, Error>)
    ensures r == EditUpdate(given, actor, name, patch)
  {
    hide EnabledAdmins;
    var users := given;
    var index := UserIndex(users, name);
    if index < 0 { return Err(UserNotFound); }
    var user := users[index];
    if patch.role.Some? && !ValidRole(patch.role.value) { return Err(InvalidRole); }
    if actor == name && user.role == Admin
       && ((patch.role.Some? && patch.role.value != Admin) || (patch.enabled.Some? && !patch.enabled.value)) {
      return Err(SelfModification);
    }
    if user.systemAccount
       && ((patch.role.Some? && patch.role.value != Admin) || (patch.enabled.Some? && !patch.enabled.value)) {
      return Err(SystemAccount);
    }
    var changed: bool;
    user, changed := ApplyPatch(user, patch);
    if !changed { return Ok(Unchanged(user)); }
    users := users[index := user];
    var admins := EnabledAdminCount(users);
    if admins == 0 { return Err(LastAdmin); }
    users := users[index := user.(tokenVersion := Increment(user.tokenVersion))];
    assert users == given[index := user.(tokenVersion := Increment(user.tokenVersion))];
    return Ok(Changed(users, index));
  }

  class Store {
    var file: File

    constructor (file: File)
      ensures this.file == file
    {
      this.file := file;
    }

    /** saveLocked; `now` are the users as validation left them. */
    method Save(users: seq<User>, outcome: SaveOutcome) returns (now: seq<User>, error: Option<Error>)
      modifies this
      ensures file == FileAfterSave(old(file), users, outcome)
      ensures error == SaveError(users, outcome)
      ensures error.None? ==> now == Versioned(users)
    {
      var problem: Option<Error>;
      now, problem := Validate(CURRENT_VERSION, users);
      if problem.Some? {
        return now, problem;
      }
      if outcome == FailedBefore {
        return now, Some(SaveFailed);
      }
      file := Database(CURRENT_VERSION, now);
      if outcome == FailedAfter {
        return now, Some(SaveFailed);
      }
      return now, None;
    }

    method Load(env: Env, migrate: bool) returns (r: Result<seq<User>, Error>)
      modifies this
      ensures migrate ==> file == FileAfterLoad(old(file), env) && r == LoadedForWrite(old(file), env)
      ensures !migrate ==> file == old(file) && r == Loaded(file, env)
    {
      if !env.readable {
        return Err(CannotRead);
      }
      var users: seq<User>;
      match file {
        case Missing =>
          if env.defaultHash.None? { return Err(NoHash); }
          if env.initial.None? { return Err(NoEntropy); }
          users := [DefaultUser(env.defaultHash.value, env.initial.value)];
        case Garbage =>
          return Err(InvalidFile);
        case Legacy(name, hash) =>
          if name == "" || hash == "" { return Err(InvalidFile); }
          if !ValidUsername(name) { return Err(InvalidUsername); }
          if env.initial.None? { return Err(NoEntropy); }
          users := [LegacyUser(name, hash, env.initial.value, env.legacyIsDefault)];
        case Database(version, stored) =>
          var problem: Option<Error>;
          users, problem := Validate(version, stored);
          if problem.Some? { return Err(problem.value); }
          return Ok(users);
      }
      if migrate {
        var error: Option<Error>;
        users, error := Save(users, env.migration);
        if error.Some? { return Err(error.value); }
      }
      return Ok(users);
    }

    method ValidateToken(env: Env, name: string, version: uint64) returns (r: Result<User, Error>)
      modifies this
      ensures file == old(file) && r == TokenCheck(file, env, name, version)
    {
      var users := Load(env, false);
      if users.Err? { return Err(users.error); }
      var index := UserIndex(users.value, name);
      if index < 0 { return Err(UserNotFound); }
      var user := users.value[index];
      if !user.enabled || user.tokenVersion != version { return Err(SessionRevoked); }
      return Ok(user);
    }

    method Create(env: Env, name: string, password: string, role: Role) returns (r: Result<Option<User>, Error>)
      modifies this
      ensures var call := Call.Create(name, password, role);
              file == FileAfter(old(file), call, env) && r == ResultOf(old(file), call, env)
    {
      hide FileAfterLoad, LoadedForWrite, FileAfterSave, SaveError;
      if !ValidUsername(name) { return Err(InvalidUsername); }
      if !ValidPassword(password) { return Err(InvalidPassword); }
      if !ValidRole(role) { return Err(InvalidRole); }
      if env.hash.None? { return Err(NoHash); }
      if env.random.None? { return Err(NoEntropy); }
      var db := Load(env, true);
      if db.Err? { return Err(db.error); }
      var index := UserIndex(db.value, name);
      if index >= 0 { return Err(UserExists); }
      var users := db.value + [User(name, env.hash.value, role, true, env.random.value, false, false)];
      var error: Option<Error>;
      users, error := Save(users, env.commit);
      if error.Some? { return Err(error.value); }
      return Ok(None);
    }

    method Update(env: Env, actor: string, name: string, patch: Patch) returns (r: Result<Option<User>, Error>)
      modifies this
      ensures var call := Call.Update(actor, name, patch);
              file == FileAfter(old(file), call, env) && r == ResultOf(old(file), call, env)
    {
      hide FileAfterLoad, LoadedForWrite, FileAfterSave, SaveError, EnabledAdmins;
      var db := Load(env, true);
      if db.Err? { return Err(db.error); }
      var edit := UpdateUser(db.value, actor, name, patch);
      if edit.Err? { return Err(edit.error); }
      if edit.value.Unchanged? { return Ok(Some(edit.value.user)); }
      var users, error := Save(edit.value.users, env.commit);
      if error.Some? { return Err(error.value); }
      return Ok(Some(users[edit.value.index]));
    }

    method Delete(env: Env, actor: string, name: string) returns (r: Result<Option<User>, Error>)
      modifies this
      ensures var call := Call.Delete(actor, name);
              file == FileAfter(old(file), call, env) && r == ResultOf(old(file), call, env)
    {
      hide FileAfterLoad, LoadedForWrite, FileAfterSave, SaveError, EnabledAdmins;
      if actor == name { return Err(SelfDelete); }
      var db := Load(env, true);
      if db.Err? { return Err(db.error); }
      var index := UserIndex(db.value, name);
      if index < 0 { return Err(UserNotFound); }
      if db.value[index].systemAccount { return Err(SystemAccount); }
      var users := db.value[..index] + db.value[index + 1..];
      var admins := EnabledAdminCount(users);
      if admins == 0 { return Err(LastAdmin); }
      var error: Option<Error>;
      users, error := Save(users, env.commit);
      if error.Some? { return Err(error.value); }
      return Ok(None);
    }

    method SetPasswordAndRun(env: Env, name: string, password: string, after: Option<bool>)
      returns (r: Result<Option<User>, Error>)
      modifies this
      ensures var call := Call.SetPassword(name, password, after);
              file == FileAfter(old(file), call, env) && r == ResultOf(old(file), call, env)
    {
      hide FileAfterLoad, LoadedForWrite, FileAfterSave, SaveError;
      if !ValidPassword(password) { return Err(InvalidPassword); }
      if env.hash.None? { return Err(NoHash); }
      var db := Load(env, true);
      if db.Err? { return Err(db.error); }
      var index := UserIndex(db.value, name);
      if index < 0 { return Err(UserNotFound); }
      var previous, users := db.value, db.value;
      users := users[index := users[index].(passwordHash := env.hash.value, mustChangePassword := false,
                                            tokenVersion := Increment(users[index].tokenVersion))];
      var error: Option<Error>;
      users, error := Save(users, env.commit);
      if error.Some? { return Err(error.value); }
      if after.Some? && !after.value {
        var restored: seq<User>;
        restored, error := Save(previous, env.rollback);
        if error.Some? { return Err(RollbackFailed); }
        return Err(AfterCommitFailed);
      }
      return Ok(Some(users[index]));
    }

    method Revoke(env: Env, name: string) returns (r: Result<Option<User>, Error>)
      modifies this
      ensures file == FileAfter(old(file), Call.Revoke(name), env) && r == ResultOf(old(file), Call.Revoke(name), env)
    {
      hide FileAfterLoad, LoadedForWrite, FileAfterSave, SaveError;
      var db := Load(env, true);
      if db.Err? { return Err(db.error); }
      var index := UserIndex(db.value, name);
      if index < 0 { return Err(UserNotFound); }
      var users := db.value[index := db.value[index].(tokenVersion := Increment(db.value[index].tokenVersion))];
      var error: Option<Error>;
      users, error := Save(users, env.commit);
      if error.Some? { return Err(error.value); }
      return Ok(Some(users[index]));
    }

    /** None is the answer to a wrong password, an unknown and a disabled user. */
    method Authenticate(env: Env, name: string) returns (r: Result<Option<User>, Error>)
      modifies this
      ensures file == FileAfter(old(file), Call.Authenticate(name), env)
      ensures r == ResultOf(old(file), Call.Authenticate(name), env)
    {
      hide FileAfterLoad, LoadedForWrite, FileAfterSave, SaveError;
      var db := Load(env, true);
      if db.Err? { return Err(db.error); }
      var index := UserIndex(db.value, name);
      if index < 0 || !db.value[index].enabled { return Ok(None); }
      var user := db.value[index];
      if env.verdict == Matches { return Ok(Some(user)); }
      if env.verdict == Wrong { return Ok(None); }
      if env.hash.None? { return Err(NoHash); }
      user := user.(passwordHash := env.hash.value);
      if user.tokenVersion == 0 { user := user.(tokenVersion := 1); }
      var users := db.value[index := user];
      var error: Option<Error>;
      users, error := Save(users, env.commit);
      if error.Some? { return Err(error.value); }
      return Ok(Some(user));
    }
  }
}
