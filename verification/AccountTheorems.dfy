/** What holds of the account store over whole runs of its operations. */
module AccountTheorems {
  import opened Wrappers
  import opened Accounts
  import Text

  datatype Step = Step(call: Call, env: Env)

  /** The file before and after every call of a run, from any file whatever. */
  ghost predicate IsRun(files: seq<File>, steps: seq<Step>) {
    && |files| == |steps| + 1
    && forall i :: 0 <= i < |steps| ==> files[i + 1] == FileAfter(files[i], steps[i].call, steps[i].env)
  }

  // ---------------------------------------------------------------- valid users

  ghost predicate EachValid(users: seq<User>) {
    forall i :: 0 <= i < |users| ==>
      ValidUsername(users[i].username) && users[i].passwordHash != "" && ValidRole(users[i].role)
  }

  ghost predicate NamesUnique(users: seq<User>) {
    forall i, j :: 0 <= i < j < |users| ==> users[i].username != users[j].username
  }

  /** At most one system account, and it is an enabled administrator. */
  ghost predicate SystemSound(users: seq<User>) {
    && (forall i :: 0 <= i < |users| && IsSystem(users[i]) ==> IsEnabledAdmin(users[i]))
    && (forall i, j :: 0 <= i < j < |users| && IsSystem(users[i]) ==> !IsSystem(users[j]))
  }

  ghost predicate SomeAdmin(users: seq<User>) {
    exists i :: 0 <= i < |users| && IsEnabledAdmin(users[i])
  }

  ghost predicate ValidUsers(users: seq<User>) {
    EachValid(users) && NamesUnique(users) && SystemSound(users) && SomeAdmin(users)
  }

  lemma {:induction false} FirstProblemMeans(users: seq<User>, n: nat)
    requires n <= |users|
    ensures FirstProblem(users, n).None? <==> forall k :: 0 <= k < n ==> UserProblem(users, k).None?
  {
    if n > 0 {
      FirstProblemMeans(users, n - 1);
    }
  }

  lemma {:induction false} AdminsMean(users: seq<User>)
    ensures EnabledAdmins(users) > 0 <==> SomeAdmin(users)
  {
    if users != [] {
      var init := users[..|users| - 1];
      AdminsMean(init);
      if i :| 0 <= i < |users| && IsEnabledAdmin(users[i]) {
        assert i < |init| ==> IsEnabledAdmin(init[i]);
      }
    }
  }

  lemma NoProblemImplies(users: seq<User>)
    requires forall k :: 0 <= k < |users| ==> UserProblem(users, k).None?
    ensures EachValid(users) && NamesUnique(users) && SystemSound(users)
  {
    hide ValidUsername, ValidRole, IsEnabledAdmin, IsSystem;
    forall i | 0 <= i < |users|
      ensures ValidUsername(users[i].username) && users[i].passwordHash != "" && ValidRole(users[i].role)
      ensures IsSystem(users[i]) ==> IsEnabledAdmin(users[i])
      ensures forall j :: 0 <= j < i ==>
                users[j].username != users[i].username && !(IsSystem(users[i]) && IsSystem(users[j]))
    {
      assert UserProblem(users, i).None?;
    }
  }

  /** Validation finds no problem exactly if the users are valid. */
  lemma ProblemMeans(users: seq<User>)
    ensures Problem(users).None? <==> ValidUsers(users)
  {
    hide EnabledAdmins, FirstProblem, UserProblem, EachValid, NamesUnique, SystemSound;
    FirstProblemMeans(users, |users|);
    AdminsMean(users);
    if forall k :: 0 <= k < |users| ==> UserProblem(users, k).None? {
      NoProblemImplies(users);
    }
    if ValidUsers(users) {
      forall k | 0 <= k < |users| ensures UserProblem(users, k).None? { ValidHasNoProblem(users, k); }
    }
  }

  lemma ValidHasNoProblem(users: seq<User>, k: nat)
    requires ValidUsers(users) && k < |users|
    ensures UserProblem(users, k).None?
  {
    hide ValidUsername, ValidRole, IsEnabledAdmin, IsSystem;
  }

  /** A file that this version of the store has written, or could have. */
  ghost predicate Sound(file: File) {
    && file.Database? && file.version == CURRENT_VERSION && ValidUsers(file.users)
    && forall i :: 0 <= i < |file.users| ==> file.users[i].tokenVersion != 0
  }

  lemma StoredIsSound(users: seq<User>, env: Env)
    requires Problem(users).None?
    ensures Sound(Stored(users)) && Problem(Versioned(users)).None?
    ensures Loaded(Stored(users), env) == if env.readable then Ok(Versioned(users)) else Err(CannotRead)
  {
    hide Problem;
    var now := Versioned(users);
    ProblemSame(users, now);
    ProblemMeans(now);
    assert Versioned(now) == now;
  }

  lemma ProblemSame(users: seq<User>, now: seq<User>)
    requires now == Versioned(users)
    ensures Problem(now) == Problem(users)
  {
    hide FirstProblem, EnabledAdmins;
    ProblemsIgnoreVersions(users, now, |users|);
    AdminsIgnoreVersions(users, now);
  }

  lemma SoundLoads(file: File, env: Env)
    requires Sound(file)
    ensures Loaded(file, env) == if env.readable then Ok(file.users) else Err(CannotRead)
    ensures FileAfterLoad(file, env) == file && LoadedForWrite(file, env) == Loaded(file, env)
    ensures Stored(file.users) == file && Problem(file.users).None?
  {
    hide Problem, ValidUsers;
    ProblemMeans(file.users);
    assert Versioned(file.users) == file.users;
  }

  // ---------------------------------------------------------------- one call

  /** A call on a sound file leaves it, or stores what its edit makes of the users. */
  lemma SoundStep(file: File, call: Call, env: Env)
    requires Sound(file)
    ensures FileAfter(file, call, env) == file
            || (Refused(call, env).None? && Edited(file.users, call, env).Ok?
                && Edited(file.users, call, env).value.Changed?
                && Problem(Edited(file.users, call, env).value.users).None?
                && FileAfter(file, call, env) == Stored(Edited(file.users, call, env).value.users))
  {
    hide Sound, Problem, Loaded, Edited, Stored, FileAfterLoad, LoadedForWrite;
    SoundLoads(file, env);
  }

  /** Any call on any file leaves it, or leaves a sound one. */
  lemma AnyStep(file: File, call: Call, env: Env)
    ensures FileAfter(file, call, env) == file || Sound(FileAfter(file, call, env))
  {
    hide Sound, Problem, Loaded, Edited, Stored;
    forall users | Problem(users).None?
      ensures Sound(Stored(users))
    {
      StoredIsSound(users, env);
    }
  }

  lemma {:induction false} SoundStays(files: seq<File>, steps: seq<Step>, i: nat, j: nat)
    requires IsRun(files, steps) && i <= j < |files| && Sound(files[i])
    ensures Sound(files[j])
  {
    hide Sound, FileAfter;
    if i < j {
      SoundStays(files, steps, i, j - 1);
      AnyStep(files[j - 1], steps[j - 1].call, steps[j - 1].env);
    }
  }

  /** In every run, whatever the file held at first, it is untouched or sound: usernames are unique,
      an enabled administrator remains, and at most one system account exists, enabled and an
      administrator. */
  lemma {:induction false} UsersStayValid(files: seq<File>, steps: seq<Step>, i: nat)
    requires IsRun(files, steps) && i < |files|
    ensures files[i] == files[0] || Sound(files[i])
  {
    hide Sound, FileAfter;
    if i > 0 {
      UsersStayValid(files, steps, i - 1);
      AnyStep(files[i - 1], steps[i - 1].call, steps[i - 1].env);
    }
  }

  // ---------------------------------------------------------------- the system account

  ghost predicate HasSystem(users: seq<User>, name: string) {
    exists i :: 0 <= i < |users| && IsSystem(users[i]) && users[i].username == name
  }

  /** The same system accounts by name. */
  ghost predicate SameSystem(users: seq<User>, now: seq<User>) {
    forall name :: HasSystem(now, name) <==> HasSystem(users, name)
  }

  lemma ReplacedKeepsSystem(users: seq<User>, i: nat, u: User)
    requires i < |users| && u.username == users[i].username && IsSystem(u) == IsSystem(users[i])
    ensures SameSystem(users, users[i := u])
  {
    var now := users[i := u];
    forall name
      ensures HasSystem(now, name) <==> HasSystem(users, name)
    {
      if k :| 0 <= k < |now| && IsSystem(now[k]) && now[k].username == name {
        assert IsSystem(users[k]) && users[k].username == name;
      }
      if k :| 0 <= k < |users| && IsSystem(users[k]) && users[k].username == name {
        assert IsSystem(now[k]) && now[k].username == name;
      }
    }
  }

  lemma DroppedKeepsSystem(users: seq<User>, i: nat)
    requires i < |users| && !IsSystem(users[i])
    ensures SameSystem(users, users[..i] + users[i + 1..])
  {
    var now := users[..i] + users[i + 1..];
    forall name
      ensures HasSystem(now, name) <==> HasSystem(users, name)
    {
      if k :| 0 <= k < |now| && IsSystem(now[k]) && now[k].username == name {
        var k' := if k < i then k else k + 1;
        assert IsSystem(users[k']) && users[k'].username == name;
      }
      if k :| 0 <= k < |users| && IsSystem(users[k]) && users[k].username == name {
        var k' := if k < i then k else k - 1;
        assert IsSystem(now[k']) && now[k'].username == name;
      }
    }
  }

  lemma AddedKeepsSystem(users: seq<User>, u: User)
    requires !IsSystem(u)
    ensures SameSystem(users, users + [u])
  {
    var now := users + [u];
    forall name
      ensures HasSystem(now, name) <==> HasSystem(users, name)
    {
      if k :| 0 <= k < |now| && IsSystem(now[k]) && now[k].username == name {
        assert IsSystem(users[k]) && users[k].username == name;
      }
      if k :| 0 <= k < |users| && IsSystem(users[k]) && users[k].username == name {
        assert IsSystem(now[k]) && now[k].username == name;
      }
    }
  }

  /** An edit that neither adds nor drops a user replaces one, who keeps name and kind. */
  lemma OneReplaced(users: seq<User>, call: Call, env: Env)
    requires Refused(call, env).None? && Edited(users, call, env).Ok? && Edited(users, call, env).value.Changed?
    requires !call.Create? && !call.Delete?
    ensures var i, now := IndexOf(users, call.username), Edited(users, call, env).value.users;
            && 0 <= i < |users| && |now| == |users| && now == users[i := now[i]]
            && now[i].username == users[i].username && IsSystem(now[i]) == IsSystem(users[i])
  {
    hide EnabledAdmins, IndexOf;
  }

  lemma EditKeepsSystem(users: seq<User>, call: Call, env: Env)
    requires Refused(call, env).None? && Edited(users, call, env).Ok? && Edited(users, call, env).value.Changed?
    ensures SameSystem(users, Edited(users, call, env).value.users)
  {
    hide SameSystem, EnabledAdmins;
    if call.Create? {
      AddedKeepsSystem(users, User(call.username, env.hash.value, call.role, true, env.random.value, false, false));
    } else if call.Delete? {
      DroppedKeepsSystem(users, IndexOf(users, call.username));
    } else {
      hide Edited;
      OneReplaced(users, call, env);
      var i := IndexOf(users, call.username);
      ReplacedKeepsSystem(users, i, Edited(users, call, env).value.users[i]);
    }
  }

  lemma VersionedKeepsSystem(users: seq<User>)
    ensures SameSystem(users, Versioned(users))
  {
    var now := Versioned(users);
    forall name
      ensures HasSystem(now, name) <==> HasSystem(users, name)
    {
      if k :| 0 <= k < |now| && IsSystem(now[k]) && now[k].username == name {
        assert IsSystem(users[k]) && users[k].username == name;
      }
      if k :| 0 <= k < |users| && IsSystem(users[k]) && users[k].username == name {
        assert IsSystem(now[k]) && now[k].username == name;
      }
    }
  }

  /** Once the file is sound, its system account stays, under the same name, for the rest of the
      run; it stays an enabled administrator, and no other one ever appears. */
  lemma {:induction false} SystemAccountStays(files: seq<File>, steps: seq<Step>, i: nat, j: nat)
    requires IsRun(files, steps) && i <= j < |files| && Sound(files[i])
    ensures Sound(files[j]) && SystemSound(files[j].users) && SameSystem(files[i].users, files[j].users)
  {
    hide FileAfter, Problem, Edited, Refused, HasSystem;
    SoundStays(files, steps, i, j);
    if i < j {
      SystemAccountStays(files, steps, i, j - 1);
      SoundStays(files, steps, i, j - 1);
      var file, call, env := files[j - 1], steps[j - 1].call, steps[j - 1].env;
      SoundStep(file, call, env);
      if files[j] != file {
        EditKeepsSystem(file.users, call, env);
        VersionedKeepsSystem(Edited(file.users, call, env).value.users);
      }
    }
  }

  // ---------------------------------------------------------------- errors

  /** The users that a call is about to store: none if it is refused, if the file cannot be loaded, if
      the edit is an error or changes nothing, or if its outcome is invalid. */
  function Intended(file: File, call: Call, env: Env): Option<seq<User>> {
    if Refused(call, env).Some? || LoadedForWrite(file, env).Err? then None
    else
      match Edited(LoadedForWrite(file, env).value, call, env)
      case Ok(Changed(users, _)) => if Problem(users).None? then Some(Versioned(users)) else None
      case _ => None
  }

  /** The ways in which an error can leave the new users behind: the save fails after it has replaced
      the file, or the system-side update fails and so does taking the change back. */
  predicate Leaks(call: Call, env: Env) {
    env.commit == FailedAfter || (env.commit == Done && AfterFails(call) && env.rollback == FailedBefore)
  }

  /** Saving shows what was saved, or what was there before. */
  lemma SavedLoads(file: File, users: seq<User>, outcome: SaveOutcome, env: Env)
    requires env.readable
    ensures Loaded(FileAfterSave(file, users, outcome), env)
            == if Problem(users).None? && outcome != FailedBefore then Ok(Versioned(users)) else Loaded(file, env)
  {
    hide Problem, Loaded;
    if Problem(users).None? {
      StoredIsSound(users, env);
    }
  }

  /** Loading for a write does not change what the file stands for, and gives users that can be saved. */
  lemma LoadingKeeps(file: File, env: Env)
    ensures Loaded(FileAfterLoad(file, env), env) == Loaded(file, env)
    ensures LoadedForWrite(file, env).Ok? ==>
              LoadedForWrite(file, env) == Loaded(file, env) && env.readable
              && Problem(LoadedForWrite(file, env).value).None?
              && Versioned(LoadedForWrite(file, env).value) == LoadedForWrite(file, env).value
  {
    hide Problem;
    var users := Loaded(file, env);
    if users.Ok? {
      assert Versioned(users.value) == users.value;
      if !file.Database? {
        SavedLoads(file, users.value, env.migration, env);
      } else {
        ProblemSame(file.users, users.value);
      }
    }
  }

  /** A call that returns an error leaves what the file stands for as it was, with one exception that
      happens every time it can: if the call was about to store users, and its save failed late or its
      change could not be taken back, then the file stands for just those users. */
  lemma ErrorsKeepTheUsers(file: File, call: Call, env: Env)
    requires ResultOf(file, call, env).Err?
    ensures Loaded(FileAfter(file, call, env), env) ==
              if Intended(file, call, env).Some? && Leaks(call, env) then Ok(Intended(file, call, env).value)
              else Loaded(file, env)
  {
    hide Problem, Loaded, Edited, Refused, FileAfterLoad, LoadedForWrite, FileAfterSave, Stored;
    LoadingKeeps(file, env);
    if Refused(call, env).None? && LoadedForWrite(file, env).Ok? {
      var ready, users := FileAfterLoad(file, env), LoadedForWrite(file, env).value;
      var edit := Edited(users, call, env);
      if edit.Ok? && edit.value.Changed? {
        var now := edit.value.users;
        SavedLoads(ready, now, env.commit, env);
        SavedLoads(FileAfterSave(ready, now, env.commit), users, env.rollback, env);
      }
    }
  }

  /** A call that succeeds and was about to store users has stored them. */
  lemma SuccessStores(file: File, call: Call, env: Env)
    requires ResultOf(file, call, env).Ok? && Intended(file, call, env).Some?
    ensures Loaded(FileAfter(file, call, env), env) == Ok(Intended(file, call, env).value)
  {
    hide Problem, Loaded, Edited, Refused, FileAfterLoad, LoadedForWrite, FileAfterSave, Stored;
    LoadingKeeps(file, env);
    SavedLoads(FileAfterLoad(file, env), Edited(LoadedForWrite(file, env).value, call, env).value.users, env.commit,
        env);
  }

  lemma OneUserIsValid(u: User)
    requires u.username == DEFAULT_USERNAME && u.passwordHash != "" && IsEnabledAdmin(u)
    ensures Problem([u]).None?
  {
    ProblemMeans([u]);
    assert IsEnabledAdmin([u][0]);
  }

  /** The call fails with this error on a valid file, and what the file stands for has changed. */
  ghost predicate FailsButChanges(file: File, call: Call, env: Env, error: Error) {
    Sound(file) && ResultOf(file, call, env) == Err(error)
        && Loaded(FileAfter(file, call, env), env) != Loaded(file, env)
  }

  /** The exception is real, both ways: a revocation whose save fails late, and a password change
      that the system refuses and that cannot be taken back. */
  lemma ErrorsCanLeak()
    ensures exists file, call, env :: FailsButChanges(file, call, env, SaveFailed)
    ensures exists file, call, env :: FailsButChanges(file, call, env, RollbackFailed)
  {
    hide FailsButChanges;
    var u := User(DEFAULT_USERNAME, "old", Admin, true, 1, false, true);
    LeakOfRevoke(u, Env(true, None, None, None, None, false, Wrong, Done, FailedAfter, Done));
    LeakOfPassword(u, Env(true, Some("new"), None, None, None, false, Wrong, Done, Done, FailedBefore));
  }

  lemma LeakOfRevoke(u: User, env: Env)
    requires env.readable && env.commit == FailedAfter
    requires u.username == DEFAULT_USERNAME && u.passwordHash != "" && IsEnabledAdmin(u) && u.tokenVersion == 1
    ensures FailsButChanges(Database(CURRENT_VERSION, [u]), Call.Revoke(DEFAULT_USERNAME), env, SaveFailed)
  {
    hide Problem;
    var file, now := Database(CURRENT_VERSION, [u]), [Bumped(u)];
    OneUserIsValid(u);
    OneUserIsValid(Bumped(u));
    ProblemMeans([u]);
    SoundLoads(file, env);
    StoredIsSound(now, env);
    OnlyUser(u);
    assert [u][0 := Bumped(u)] == now;
    assert Edited([u], Call.Revoke(DEFAULT_USERNAME), env) == Ok(Changed(now, 0));
    assert Versioned(now)[0] != [u][0];
  }

  lemma OnlyUser(u: User)
    ensures IndexOf([u], u.username) == 0
  {
    IndexIs([u], 0);
  }

  lemma LeakOfPassword(u: User, env: Env)
    requires env.readable && env.commit == Done && env.rollback == FailedBefore && env.hash == Some("new")
    requires u.username == DEFAULT_USERNAME && u.passwordHash != "" && IsEnabledAdmin(u) && u.tokenVersion == 1
    ensures FailsButChanges(Database(CURRENT_VERSION, [u]), Call.SetPassword(DEFAULT_USERNAME, "password", Some(false)),
              env, RollbackFailed)
  {
    hide Problem, ValidPassword;
    var file, call := Database(CURRENT_VERSION, [u]), Call.SetPassword(DEFAULT_USERNAME, "password", Some(false));
    var now := [WithPassword(u, env.hash.value)];
    EightLettersAreValid();
    OneUserIsValid(u);
    OneUserIsValid(WithPassword(u, env.hash.value));
    ProblemMeans([u]);
    SoundLoads(file, env);
    StoredIsSound(now, env);
    OnlyUser(u);
    assert [u][0 := WithPassword(u, env.hash.value)] == now;
    assert Edited([u], call, env) == Ok(Changed(now, 0));
    assert Versioned(now)[0] != [u][0];
  }

  lemma EightLettersAreValid()
    ensures ValidPassword("password")
  {
    Text.SizeIsAtLeastLength("password");
  }

  // ---------------------------------------------------------------- token versions

  /** One bump and the validation of the next save. */
  function Bump(v: uint64): uint64 {
    Fixed(Increment(v))
  }

  function Bumps(v: uint64, n: nat): uint64 {
    if n == 0 then v else Bump(Bumps(v, n - 1))
  }

  /** The versions other than zero, counted round a circle. */
  const CIRCLE := UINT64 - 1

  function OnCircle(x: nat): nat {
    x % CIRCLE
  }

  lemma OneMoreRound(x: nat)
    ensures OnCircle(x + 1) == OnCircle(OnCircle(x) + 1)
  {
    var q, r := x / CIRCLE, x % CIRCLE;
    assert x + 1 == q * CIRCLE + (r + 1);
  }

  lemma OnceRound(x: nat)
    ensures x < CIRCLE ==> OnCircle(x) == x
    ensures CIRCLE <= x < 2 * CIRCLE ==> OnCircle(x) == x - CIRCLE
  {
  }

  lemma BumpOnCircle(x: nat)
    ensures Bump(OnCircle(x) + 1) == OnCircle(OnCircle(x) + 1) + 1
  {
    OnceRound(OnCircle(x) + 1);
  }

  /** Bumping is one cycle over all versions other than zero. */
  lemma {:induction false} BumpsGoRound(v: uint64, n: nat)
    requires v != 0
    ensures Bumps(v, n) == OnCircle(v - 1 + n) + 1
  {
    hide Bump, OnCircle;
    if n == 0 {
      OnceRound(v - 1);
    } else {
      BumpsGoRound(v, n - 1);
      BumpOnCircle(v - 1 + (n - 1));
      OneMoreRound(v - 1 + (n - 1));
    }
  }

  lemma BumpsAreDistinct(v: uint64, n: nat)
    requires v != 0 && 0 < n < CIRCLE
    ensures Bumps(v, n) != v
  {
    hide Bumps, OnCircle;
    BumpsGoRound(v, n);
    OnceRound(v - 1 + n);
  }

  lemma BumpsReachAll(v: uint64, w: uint64)
    requires v != 0 && w != 0
    ensures exists n: nat :: n < CIRCLE && Bumps(v, n) == w
  {
    hide Bumps, OnCircle;
    var n: nat := if w >= v then w - v else w - v + CIRCLE;
    BumpsGoRound(v, n);
    OnceRound(v - 1 + n);
  }

  /** The token version of a user. */
  function VersionOf(users: seq<User>, name: string): Option<uint64> {
    var i := IndexOf(users, name);
    if i < 0 then None else Some(users[i].tokenVersion)
  }

  lemma IndexIs(users: seq<User>, i: nat)
    requires i < |users| && NamesUnique(users)
    ensures IndexOf(users, users[i].username) == i
  {
    var k := IndexOf(users, users[i].username);
    assert k >= 0;
  }

  lemma VersionIs(users: seq<User>, i: nat)
    requires i < |users| && NamesUnique(users)
    ensures VersionOf(users, users[i].username) == Some(users[i].tokenVersion)
  {
    IndexIs(users, i);
  }

  /** The calls that revoke the tokens of a user when they change something. */
  predicate Revokes(call: Call, name: string) {
    (call.Update? || call.SetPassword? || call.Revoke?) && call.username == name
  }

  lemma ReplacedVersion(users: seq<User>, i: nat, u: User, name: string)
    requires i < |users| && u.username == users[i].username && NamesUnique(users)
    ensures NamesUnique(users[i := u])
    ensures VersionOf(users[i := u], name) == if name == u.username then Some(u.tokenVersion)
              else VersionOf(users, name)
  {
    var now := users[i := u];
    if name == u.username {
      VersionIs(now, i);
    } else {
      var k := IndexOf(users, name);
      if k >= 0 {
        VersionIs(users, k);
        VersionIs(now, k);
      }
    }
  }

  lemma DroppedVersion(users: seq<User>, i: nat, name: string)
    requires i < |users| && NamesUnique(users)
    ensures var now := users[..i] + users[i + 1..];
            VersionOf(now, name) == if name == users[i].username then None else VersionOf(users, name)
  {
    var now := users[..i] + users[i + 1..];
    assert forall k :: 0 <= k < |now| ==> now[k] == users[if k < i then k else k + 1];
    var k := IndexOf(users, name);
    if name != users[i].username && k >= 0 {
      VersionIs(users, k);
      var k' := if k < i then k else k - 1;
      assert now[k'] == users[k];
      VersionIs(now, k');
    } else if name == users[i].username {
      IndexIs(users, i);
      assert forall j :: 0 <= j < |now| ==> now[j].username != name;
    }
  }

  lemma AddedVersion(users: seq<User>, u: User, name: string)
    requires IndexOf(users, u.username) < 0
    ensures VersionOf(users, name).Some? ==> VersionOf(users + [u], name) == VersionOf(users, name)
  {
    assert (users + [u])[..|users|] == users;
  }

  /** An edit bumps the version of the user it is about, if it is one that revokes, and leaves the
      versions of all others alone. */
  lemma EditVersion(users: seq<User>, call: Call, env: Env, name: string)
    requires Refused(call, env).None? && Edited(users, call, env).Ok? && Edited(users, call, env).value.Changed?
    requires NamesUnique(users) && forall i :: 0 <= i < |users| ==> users[i].tokenVersion != 0
    ensures var now := Edited(users, call, env).value.users;
            VersionOf(users, name).Some? && VersionOf(now, name).Some? ==>
              VersionOf(now, name).value
              == if Revokes(call, name) then Increment(VersionOf(users, name).value) else VersionOf(users, name).value
  {
    hide EnabledAdmins, VersionOf, NamesUnique;
    var now := Edited(users, call, env).value.users;
    match call
    case Create(created, _, role) =>
      AddedVersion(users, User(created, env.hash.value, role, true, env.random.value, false, false), name);
    case Delete(_, deleted) => DroppedVersion(users, IndexOf(users, deleted), name);
    case _ =>
      var i := IndexOf(users, call.username);
      ReplacedVersion(users, i, now[i], name);
      VersionIs(users, i);
  }

  lemma VersionedVersion(users: seq<User>, name: string)
    ensures VersionOf(Versioned(users), name)
            == if VersionOf(users, name).None? then None else Some(Fixed(VersionOf(users, name).value))
  {
    var now := Versioned(users);
    var k, k' := IndexOf(users, name), IndexOf(now, name);
    assert forall i :: 0 <= i < |users| ==> now[i].username == users[i].username;
    assert k == k';
  }

  /** A call on a sound file leaves the version of a user who stays, or bumps it. */
  lemma StepVersion(file: File, call: Call, env: Env, name: string)
    requires Sound(file) && VersionOf(file.users, name).Some?
    requires Sound(FileAfter(file, call, env)) && VersionOf(FileAfter(file, call, env).users, name).Some?
    ensures var v, w := VersionOf(file.users, name).value, VersionOf(FileAfter(file, call, env).users, name).value;
            v != 0 && (w == v || w == Bump(v))
            && (FileAfter(file, call, env) != file && Revokes(call, name) ==> w == Bump(v))
  {
    hide FileAfter, Problem, Edited, Refused, VersionOf, ValidUsers;
    SoundStep(file, call, env);
    VersionNotZero(file, name);
    if FileAfter(file, call, env) != file {
      UniqueOf(file);
      EditVersion(file.users, call, env, name);
      VersionedVersion(Edited(file.users, call, env).value.users, name);
    }
  }

  lemma VersionNotZero(file: File, name: string)
    requires Sound(file) && VersionOf(file.users, name).Some?
    ensures VersionOf(file.users, name).value != 0
  {
    hide ValidUsers;
  }

  lemma UniqueOf(file: File)
    requires Sound(file)
    ensures NamesUnique(file.users)
  {
  }

  lemma RevokingSaves(file: File, call: Call, env: Env, name: string)
    requires Sound(file) && (call.Revoke? || call.SetPassword?) && call.username == name
    requires ResultOf(file, call, env).Ok? && VersionOf(file.users, name).Some?
    ensures FileAfter(file, call, env) != file
  {
    hide Problem, Sound;
    SoundLoads(file, env);
    var edit := Edited(file.users, call, env);
    var i := IndexOf(file.users, name);
    assert edit.value.index == i && edit.value.users[i].tokenVersion == Increment(file.users[i].tokenVersion);
    assert Versioned(edit.value.users)[i].tokenVersion != file.users[i].tokenVersion;
  }

  /** The user is there, in a sound file, all the way from i to j. */
  ghost predicate Present(files: seq<File>, name: string, i: nat, j: nat)
    requires j < |files|
  {
    forall k :: i <= k <= j ==> Sound(files[k]) && VersionOf(files[k].users, name).Some?
  }

  function Changes(files: seq<File>, name: string, i: nat, j: nat): nat
    requires i <= j < |files|
    requires forall k :: i <= k <= j ==> files[k].Database?
    decreases j
  {
    if i == j then 0
    else Changes(files, name, i, j - 1)
         + if VersionOf(files[j].users, name) != VersionOf(files[j - 1].users, name) then 1 else 0
  }

  /** Over a run a version moves round the circle, one step for every change. */
  lemma {:induction false} VersionsGoRound(files: seq<File>, steps: seq<Step>, name: string, i: nat, j: nat)
    requires IsRun(files, steps) && i <= j < |files| && Present(files, name, i, j)
    ensures VersionOf(files[i].users, name).value != 0
    ensures Changes(files, name, i, j) <= j - i
    ensures VersionOf(files[j].users, name).value
            == Bumps(VersionOf(files[i].users, name).value, Changes(files, name, i, j))
    decreases j
  {
    hide FileAfter, VersionOf, ValidUsers;
    VersionNotZero(files[i], name);
    if i < j {
      VersionsGoRound(files, steps, name, i, j - 1);
      assert files[j - 1 + 1] == FileAfter(files[j - 1], steps[j - 1].call, steps[j - 1].env);
      StepVersion(files[j - 1], steps[j - 1].call, steps[j - 1].env, name);
    }
  }

  lemma {:induction false} ChangesGrow(files: seq<File>, name: string, i: nat, k: nat, j: nat)
    requires i <= k < j < |files| && forall n :: i <= n <= j ==> files[n].Database?
    ensures Changes(files, name, i, j)
            >= if VersionOf(files[k + 1].users, name) != VersionOf(files[k].users, name) then 1 else 0
    decreases j
  {
    if k + 1 < j {
      ChangesGrow(files, name, i, k, j - 1);
    }
  }

  /** A revoked token stays revoked: once a call has changed a user's password, role, state or
      sessions, every version the user had before is rejected from then on, as long as the user is
      not deleted and fewer than 2^64 - 1 calls have been made. */
  lemma RevokedStaysRevoked(files: seq<File>, steps: seq<Step>, name: string, i: nat, k: nat, j: nat, env: Env)
    requires IsRun(files, steps) && i <= k < j < |files| && Present(files, name, i, j)
    requires Revokes(steps[k].call, name) && files[k + 1] != files[k]
    requires j - i < CIRCLE
    ensures TokenCheck(files[j], env, name, VersionOf(files[i].users, name).value).Err?
  {
    hide FileAfter, ValidUsers, Bumps;
    var v := VersionOf(files[i].users, name).value;
    VersionsGoRound(files, steps, name, i, j);
    StepVersion(files[k], steps[k].call, steps[k].env, name);
    BumpIsNew(VersionOf(files[k].users, name).value);
    ChangesGrow(files, name, i, k, j);
    BumpsAreDistinct(v, Changes(files, name, i, j));
    SoundLoads(files[j], env);
  }

  lemma BumpIsNew(v: uint64)
    requires v != 0
    ensures Bump(v) != v && Bump(v) != 0
  {
  }

  /** Revoking sessions and setting a password always count as such a change when they succeed. */
  lemma SuccessRevokes(files: seq<File>, steps: seq<Step>, name: string, k: nat, j: nat, env: Env)
    requires IsRun(files, steps) && k < j < |files| && Present(files, name, k, j) && j - k < CIRCLE
    requires (steps[k].call.Revoke? || steps[k].call.SetPassword?) && steps[k].call.username == name
    requires ResultOf(files[k], steps[k].call, steps[k].env).Ok?
    ensures TokenCheck(files[j], env, name, VersionOf(files[k].users, name).value).Err?
  {
    hide FileAfter, ResultOf, TokenCheck, VersionOf;
    RevokingSaves(files[k], steps[k].call, steps[k].env, name);
    RevokedStaysRevoked(files, steps, name, k, k, j, env);
  }
}
