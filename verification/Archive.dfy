/**
 The two passes over an update archive: inspect decides whether the archive is acceptable, extract
 writes it out. Both read the same entries; `torn` says that the reader fails after the last of
 them. Whether a write succeeds is decided by the parameter `writes`, entry by entry.
 */
module Archive {
  import opened Wrappers
  import opened Paths

  const MAX_EXPANDED_SIZE := 0x8000_0000
  const MAX_ARCHIVE_ENTRIES := 100_000
  const UINT64 := 0x1_0000_0000_0000_0000

  type int64 = x: int | -0x8000_0000_0000_0000 <= x < 0x8000_0000_0000_0000
  type uint64 = x: int | 0 <= x < UINT64

  const TYPE_REG := '0'
  const TYPE_REG_A := '\0'
  const TYPE_DIR := '5'

  datatype Header = Header(name: string, typeflag: char, size: int64)

  datatype Error =
    | CannotOpen | CannotRead | InvalidPath | OutsideRoot | UnsupportedType
    | Duplicate | TooManyEntries | NegativeSize | TooLarge | Overflow
    | MissingRoot | MissingVersion | WriteFailed

  datatype Info = Info(root: string, expandedBytes: uint64, entries: nat)

  datatype Archive = Archive(opens: bool, entries: seq<Header>, torn: bool)

  /** What extract asks of the file system. */
  datatype Effect = MakeDirs(path: string) | CreateFile(path: string, size: nat)

  function Add64(a: uint64, b: uint64): uint64 { (a + b) % UINT64 }
  function Sub64(a: uint64, b: uint64): uint64 { (a - b) % UINT64 }
  function ToUint64(a: int64): uint64 { a % UINT64 }

  predicate IsRegular(h: Header) {
    h.typeflag == TYPE_REG || h.typeflag == TYPE_REG_A
  }

  function ValidateHeader(h: Header, root: string): Result<string, Error> {
    if h.name == "" || IsAbs(h.name) then Err(InvalidPath)
    else
      var name := Clean(h.name);
      if name == "." || name == ".." || "../" <= name then Err(InvalidPath)
      else if name != root && !(root + "/" <= name) then Err(OutsideRoot)
      else if !IsRegular(h) && h.typeflag != TYPE_DIR then Err(UnsupportedType)
      else Ok(name)
  }

  // ---------------------------------------------------------------- what both passes check

  function Size(h: Header): nat {
    if IsRegular(h) && h.size > 0 then h.size else 0
  }

  function Total(entries: seq<Header>): nat {
    if entries == [] then 0 else Total(entries[..|entries| - 1]) + Size(entries[|entries| - 1])
  }

  /** The verdict on entry k, given that all earlier entries passed. */
  ghost function Check(entries: seq<Header>, k: nat, root: string): Result<string, Error>
    requires k < |entries|
  {
    var h := entries[k];
    var name := ValidateHeader(h, root);
    if name.Err? then name
    else if exists j :: 0 <= j < k && ValidateHeader(entries[j], root) == name then Err(Duplicate)
    else if k + 1 > MAX_ARCHIVE_ENTRIES then Err(TooManyEntries)
    else if IsRegular(h) && h.size < 0 then Err(NegativeSize)
    else if Total(entries[..k]) + Size(h) > MAX_EXPANDED_SIZE then Err(TooLarge)
    else name
  }

  ghost predicate ChecksPass(entries: seq<Header>, n: nat, root: string)
    requires n <= |entries|
  {
    forall k :: 0 <= k < n ==> Check(entries, k, root).Ok?
  }

  /** The first entry that fails, and why. */
  ghost predicate FailsAt(entries: seq<Header>, k: nat, root: string, error: Error) {
    k < |entries| && ChecksPass(entries, k, root) && Check(entries, k, root) == Err(error)
  }

  predicate IsRootEntry(h: Header, root: string) {
    ValidateHeader(h, root) == Ok(root) && h.typeflag == TYPE_DIR
  }

  predicate IsVersionEntry(h: Header, root: string) {
    ValidateHeader(h, root) == Ok(root + "/version") && IsRegular(h)
  }

  ghost predicate Acceptable(a: Archive, root: string) {
    && a.opens && !a.torn && ChecksPass(a.entries, |a.entries|, root)
    && RootWithin(a.entries, |a.entries|, root) && VersionWithin(a.entries, |a.entries|, root)
  }

  ghost predicate RootWithin(entries: seq<Header>, n: nat, root: string)
    requires n <= |entries|
  {
    exists k :: 0 <= k < n && IsRootEntry(entries[k], root)
  }

  ghost predicate VersionWithin(entries: seq<Header>, n: nat, root: string)
    requires n <= |entries|
  {
    exists k :: 0 <= k < n && IsVersionEntry(entries[k], root)
  }

  /** The names seen in the first n entries. */
  ghost predicate Seen(entries: seq<Header>, n: nat, root: string, seen: set<string>)
    requires n <= |entries|
  {
    forall name :: name in seen <==> exists j :: 0 <= j < n && ValidateHeader(entries[j], root) == Ok(name)
  }

  /** What either pass knows after n entries. */
  ghost predicate Passed(entries: seq<Header>, n: nat, root: string, seen: set<string>, total: nat) {
    && n <= |entries| && n <= MAX_ARCHIVE_ENTRIES && ChecksPass(entries, n, root)
    && Seen(entries, n, root, seen) && total == Total(entries[..n]) && total <= MAX_EXPANDED_SIZE
  }

  lemma TotalNext(entries: seq<Header>, k: nat)
    requires k < |entries|
    ensures Total(entries[..k + 1]) == Total(entries[..k]) + Size(entries[k])
  {
    assert entries[..k + 1][..k] == entries[..k];
  }

  lemma Add64Exact(a: uint64, b: uint64)
    requires a + b < UINT64
    ensures Add64(a, b) == a + b
  {
  }

  lemma Sub64Exact(a: uint64, b: uint64)
    requires b <= a
    ensures Sub64(a, b) == a - b
  {
  }

  /** The code's checks, on its set of names and its running total, reach the verdict. */
  lemma Verdict(entries: seq<Header>, n: nat, root: string, seen: set<string>, total: nat)
    requires n < |entries| && Passed(entries, n, root, seen, total)
    ensures var h := entries[n];
            var valid := ValidateHeader(h, root);
            Check(entries, n, root) ==
              if valid.Err? then valid
              else if valid.value in seen then Err(Duplicate)
              else if n + 1 > MAX_ARCHIVE_ENTRIES then Err(TooManyEntries)
              else if IsRegular(h) && h.size < 0 then Err(NegativeSize)
              else if IsRegular(h) && h.size > MAX_EXPANDED_SIZE - total then Err(TooLarge)
              else valid
    ensures forall e :: Check(entries, n, root) == Err(e) ==> FailsAt(entries, n, root, e)
    ensures Check(entries, n, root).Err? ==> !ChecksPass(entries, |entries|, root)
  {
    hide ValidateHeader, Total, IsRegular;
    var valid := ValidateHeader(entries[n], root);
    if valid.Ok? {
      assert valid.value in seen <==> exists j :: 0 <= j < n && ValidateHeader(entries[j], root) == valid;
    }
  }

  lemma PassedNext(entries: seq<Header>, n: nat, root: string, seen: set<string>, total: nat)
    requires n < |entries| && Passed(entries, n, root, seen, total) && Check(entries, n, root).Ok?
    ensures Passed(entries, n + 1, root, seen + {ValidateHeader(entries[n], root).value}, total + Size(entries[n]))
    ensures RootWithin(entries, n + 1, root) <==> RootWithin(entries, n, root) || IsRootEntry(entries[n], root)
    ensures VersionWithin(entries, n + 1, root) <==> VersionWithin(entries, n, root) || IsVersionEntry(entries[n], root)
  {
    hide ValidateHeader, Total, IsRegular;
    TotalNext(entries, n);
  }

  // ---------------------------------------------------------------- the passes

  method Inspect(a: Archive, root: string) returns (r: Result<Info, Error>)
    ensures r.Ok? <==> Acceptable(a, root)
    ensures r.Ok? ==>
              r.value.root == root && r.value.expandedBytes == Total(a.entries) && r.value.entries == |a.entries|
    ensures r.Err? && r.error !in {CannotOpen, CannotRead, MissingRoot, MissingVersion} ==>
              exists k: nat :: FailsAt(a.entries, k, root, r.error)
    ensures r.Err? ==> r.error != Overflow && r.error != WriteFailed
    ensures r == Err(CannotOpen) ==> !a.opens
    ensures r == Err(CannotRead) ==> a.torn
    ensures r == Err(MissingRoot) ==> !RootWithin(a.entries, |a.entries|, root)
    ensures r == Err(MissingVersion) ==>
              RootWithin(a.entries, |a.entries|, root) && !VersionWithin(a.entries, |a.entries|, root)
  {
    hide ValidateHeader, Check, ChecksPass, Seen, Total, RootWithin, VersionWithin, Add64, Sub64;
    if !a.opens {
      return Err(CannotOpen);
    }
    var seen: set<string> := {};
    var hasRoot, hasVersion := false, false;
    var expandedBytes: uint64, entries := 0, 0;
    NothingPassed(a.entries, root);
    for i := 0 to |a.entries|
      invariant entries == i && Passed(a.entries, i, root, seen, expandedBytes)
      invariant hasRoot <==> RootWithin(a.entries, i, root)
      invariant hasVersion <==> VersionWithin(a.entries, i, root)
    {
      var header := a.entries[i];
      Verdict(a.entries, i, root, seen, expandedBytes);
      var valid := ValidateHeader(header, root);
      if valid.Err? {
        ErrorsOfHeaders(header, root);
        return Err(valid.error);
      }
      var name := valid.value;
      if name in seen {
        return Err(Duplicate);
      }
      ghost var before := (seen, expandedBytes);
      seen := seen + {name};
      entries := entries + 1;
      if entries > MAX_ARCHIVE_ENTRIES {
        return Err(TooManyEntries);
      }
      if name == root && header.typeflag == TYPE_DIR {
        hasRoot := true;
      }
      if name == root + "/version" && IsRegular(header) {
        hasVersion := true;
      }
      if IsRegular(header) {
        if header.size < 0 {
          return Err(NegativeSize);
        }
        var size := ToUint64(header.size);
        Sub64Exact(MAX_EXPANDED_SIZE, expandedBytes);
        if size > Sub64(MAX_EXPANDED_SIZE, expandedBytes) {
          return Err(TooLarge);
        }
        Sub64Exact(UINT64 - 1, size);
        if expandedBytes > Sub64(UINT64 - 1, size) {
          return Err(Overflow);
        }
        Add64Exact(expandedBytes, size);
        expandedBytes := Add64(expandedBytes, size);
      }
      PassedNext(a.entries, i, root, before.0, before.1);
    }
    assert a.entries[..|a.entries|] == a.entries;
    if a.torn {
      return Err(CannotRead);
    }
    if !hasRoot {
      return Err(MissingRoot);
    }
    if !hasVersion {
      return Err(MissingVersion);
    }
    return Ok(Info(root, expandedBytes, entries));
  }

  lemma NothingPassed(entries: seq<Header>, root: string)
    ensures Passed(entries, 0, root, {}, 0) && !RootWithin(entries, 0, root) && !VersionWithin(entries, 0, root)
  {
  }

  lemma ErrorsOfHeaders(h: Header, root: string)
    requires ValidateHeader(h, root).Err?
    ensures ValidateHeader(h, root).error in {InvalidPath, OutsideRoot, UnsupportedType}
  {
  }

  /** What the extraction of one entry asks for. */
  function EntryEffects(h: Header, dest: string, name: string): seq<Effect> {
    var filename := Join(dest, name);
    if IsRegular(h) then [MakeDirs(Dir(filename)), CreateFile(filename, Size(h))] else [MakeDirs(filename)]
  }

  function EffectsOf(h: Header, dest: string, root: string): seq<Effect> {
    match ValidateHeader(h, root)
    case Ok(name) => EntryEffects(h, dest, name)
    case Err(_) => []
  }

  function Effects(entries: seq<Header>, dest: string, root: string): seq<Effect> {
    if entries == [] then []
    else Effects(entries[..|entries| - 1], dest, root) + EffectsOf(entries[|entries| - 1], dest, root)
  }

  /** `asked` lists the requests made of the file system; of the entry that fails to be written it
      lists all the requests there could be. */
  method Extract(a: Archive, dest: string, root: string, writes: nat -> bool)
    returns (r: Result<string, Error>, asked: seq<Effect>)
    ensures r.Ok? <==>
              a.opens && !a.torn && ChecksPass(a.entries, |a.entries|, root) && forall k :: 0 <= k < |a.entries| ==>
                  writes(k)
    ensures r.Ok? ==> r.value == Join(dest, root) && asked == Effects(a.entries, dest, root)
    ensures r == Err(CannotOpen) ==> !a.opens
    ensures r == Err(CannotRead) ==> a.torn
    ensures r == Err(WriteFailed) ==> exists k :: 0 <= k < |a.entries| && !writes(k)
    ensures r.Err? && r.error !in {CannotOpen, CannotRead, WriteFailed} ==>
              exists k: nat :: FailsAt(a.entries, k, root, r.error)
    ensures exists k: nat :: k <= |a.entries| && asked == Effects(a.entries[..k], dest, root)
  {
    hide ValidateHeader, Check, ChecksPass, Seen, Total, Effects, Add64, Sub64, Join, Dir;
    asked := [];
    NothingAsked(a.entries, dest, root);
    if !a.opens {
      return Err(CannotOpen), [];
    }
    var seen: set<string> := {};
    var entries := 0;
    var expanded: uint64 := 0;
    NothingPassed(a.entries, root);
    for i := 0 to |a.entries|
      invariant entries == i && Passed(a.entries, i, root, seen, expanded)
      invariant forall k :: 0 <= k < i ==> writes(k)
      invariant asked == Effects(a.entries[..i], dest, root)
    {
      var header := a.entries[i];
      AskedNext(a.entries, i, dest, root);
      Verdict(a.entries, i, root, seen, expanded);
      var valid := ValidateHeader(header, root);
      if valid.Err? {
        ErrorsOfHeaders(header, root);
        return Err(valid.error), asked;
      }
      TypesOfHeaders(header, root);
      var name := valid.value;
      if name in seen {
        return Err(Duplicate), asked;
      }
      ghost var before := (seen, expanded);
      seen := seen + {name};
      entries := entries + 1;
      if entries > MAX_ARCHIVE_ENTRIES {
        return Err(TooManyEntries), asked;
      }
      var filename := Join(dest, name);
      if header.typeflag == TYPE_DIR {
        asked := asked + [MakeDirs(filename)];
        if !writes(i) {
          return Err(WriteFailed), asked;
        }
      } else if IsRegular(header) {
        if header.size < 0 {
          return Err(NegativeSize), asked;
        }
        var size := ToUint64(header.size);
        Sub64Exact(MAX_EXPANDED_SIZE, expanded);
        if size > Sub64(MAX_EXPANDED_SIZE, expanded) {
          return Err(TooLarge), asked;
        }
        Add64Exact(expanded, size);
        expanded := Add64(expanded, size);
        asked := asked + [MakeDirs(Dir(filename)), CreateFile(filename, header.size)];
        if !writes(i) {
          return Err(WriteFailed), asked;
        }
      }
      PassedNext(a.entries, i, root, before.0, before.1);
    }
    assert a.entries[..|a.entries|] == a.entries;
    if a.torn {
      return Err(CannotRead), asked;
    }
    return Ok(Join(dest, root)), asked;
  }

  lemma NothingAsked(entries: seq<Header>, dest: string, root: string)
    ensures Effects(entries[..0], dest, root) == []
  {
  }

  lemma AskedNext(entries: seq<Header>, n: nat, dest: string, root: string)
    requires n < |entries|
    ensures Effects(entries[..n + 1], dest, root)
              == Effects(entries[..n], dest, root) + EffectsOf(entries[n], dest, root)
  {
    assert entries[..n + 1][..n] == entries[..n];
  }

  lemma TypesOfHeaders(h: Header, root: string)
    requires ValidateHeader(h, root).Ok?
    ensures IsRegular(h) <==> h.typeflag != TYPE_DIR
  {
  }

  // ---------------------------------------------------------------- theorems

  ghost predicate NamesDistinct(entries: seq<Header>, root: string) {
    forall j, k :: 0 <= j < k < |entries| ==> ValidateHeader(entries[j], root) != ValidateHeader(entries[k], root)
  }

  ghost predicate NamesValid(entries: seq<Header>, root: string) {
    forall k :: 0 <= k < |entries| ==> ValidateHeader(entries[k], root).Ok?
  }

  ghost predicate NoNegativeFile(entries: seq<Header>) {
    forall k :: 0 <= k < |entries| && IsRegular(entries[k]) ==> entries[k].size >= 0
  }

  lemma ChecksImply(entries: seq<Header>, root: string)
    requires ChecksPass(entries, |entries|, root)
    ensures |entries| <= MAX_ARCHIVE_ENTRIES && Total(entries) <= MAX_EXPANDED_SIZE
    ensures NamesValid(entries, root) && NamesDistinct(entries, root) && NoNegativeFile(entries)
  {
    hide ValidateHeader, IsRegular;
    var n := |entries|;
    if n > 0 {
      assert Check(entries, n - 1, root).Ok?;
    }
    forall k | 0 <= k < n
      ensures ValidateHeader(entries[k], root).Ok? && (IsRegular(entries[k]) ==> entries[k].size >= 0)
    {
      assert Check(entries, k, root).Ok?;
    }
    forall j, k | 0 <= j < k < n
      ensures ValidateHeader(entries[j], root) != ValidateHeader(entries[k], root)
    {
      assert Check(entries, k, root).Ok?;
    }
  }

  lemma ChecksFollow(entries: seq<Header>, root: string, k: nat)
    requires k < |entries| <= MAX_ARCHIVE_ENTRIES && Total(entries) <= MAX_EXPANDED_SIZE
    requires NamesValid(entries, root) && NamesDistinct(entries, root) && NoNegativeFile(entries)
    ensures Check(entries, k, root).Ok?
  {
    hide ValidateHeader, IsRegular;
    TotalNext(entries, k);
    TotalGrows(entries, k + 1);
  }

  /** The verdicts of the checks, entry by entry, say exactly this about the whole archive. */
  lemma ChecksMean(entries: seq<Header>, root: string)
    ensures ChecksPass(entries, |entries|, root) <==>
            && |entries| <= MAX_ARCHIVE_ENTRIES && Total(entries) <= MAX_EXPANDED_SIZE
            && NamesValid(entries, root) && NamesDistinct(entries, root) && NoNegativeFile(entries)
  {
    hide Check, NamesValid, NamesDistinct, NoNegativeFile;
    if ChecksPass(entries, |entries|, root) {
      ChecksImply(entries, root);
    } else if |entries| <= MAX_ARCHIVE_ENTRIES && Total(entries) <= MAX_EXPANDED_SIZE
              && NamesValid(entries, root) && NamesDistinct(entries, root) && NoNegativeFile(entries) {
      forall k | 0 <= k < |entries| ensures Check(entries, k, root).Ok? { ChecksFollow(entries, root, k); }
    }
  }

  lemma {:induction false} TotalGrows(entries: seq<Header>, k: nat)
    requires k <= |entries|
    ensures Total(entries[..k]) <= Total(entries)
    decreases |entries|
  {
    if k < |entries| {
      var init := entries[..|entries| - 1];
      TotalGrows(init, k);
      assert init[..k] == entries[..k];
    } else {
      assert entries[..k] == entries;
    }
  }

  /** An accepted name consists of real names, and the root is a prefix of them. */
  lemma NamesAreBelow(h: Header, root: string)
    requires ValidateHeader(h, root).Ok?
    ensures var name := ValidateHeader(h, root).value;
            AllPlain(Split(name)) && Split(root) <= Split(name) && (name != root ==> |Split(root)| < |Split(name)|)
  {
    var name := ValidateHeader(h, root).value;
    CleanIsPlain(h.name);
    if name != root {
      var rest := name[|root| + 1..];
      assert name == root + "/" + rest;
      SplitConcat(root, rest);
    }
  }

  lemma {:induction false} SplitOfPrefix(root: string, name: string)
    requires Split(root) <= Split(name)
    ensures name == root || root + "/" <= name
  {
    var more := Split(name)[|Split(root)|..];
    assert Split(name) == Split(root) + more;
    JoinedSplit(root);
    JoinedSplit(name);
    if more != [] {
      JoinedConcat(Split(root), more);
    } else {
      assert Split(name) == Split(root);
    }
  }

  lemma PlainIsNoDot(name: string)
    requires AllPlain(Split(name))
    ensures name != "." && name != ".." && !("../" <= name)
  {
    SplitWhole(".");
    SplitWhole("..");
    assert Split(name)[0] in Split(name);
    if "../" <= name {
      assert name == ".." + "/" + name[3..];
      SplitConcat("..", name[3..]);
    }
  }

  /** A header is accepted exactly if its name is relative and, once cleaned, consists of real names of
      which the root's are the first, and it is a file or a directory; it is accepted under that name. */
  lemma HeaderAcceptedIff(h: Header, root: string)
    ensures ValidateHeader(h, root).Ok? <==>
              && h.name != "" && !IsAbs(h.name)
              && AllPlain(Split(Clean(h.name))) && Split(root) <= Split(Clean(h.name))
              && h.typeflag in {TYPE_REG, TYPE_REG_A, TYPE_DIR}
    ensures ValidateHeader(h, root).Ok? ==> ValidateHeader(h, root).value == Clean(h.name)
  {
    hide Clean, Split;
    if ValidateHeader(h, root).Ok? {
      NamesAreBelow(h, root);
    } else if AllPlain(Split(Clean(h.name))) && Split(root) <= Split(Clean(h.name)) {
      PlainIsNoDot(Clean(h.name));
      SplitOfPrefix(root, Clean(h.name));
    }
  }

  /** The path that an entry is extracted to. */
  function PathOf(h: Header, dest: string): string {
    Join(dest, Clean(h.name))
  }

  lemma NoEntries(dest: string, root: string)
    ensures Effects([], dest, root) == []
  {
  }

  lemma OneMoreEntry(entries: seq<Header>, h: Header, dest: string, root: string)
    requires ValidateHeader(h, root).Ok?
    ensures Effects(entries + [h], dest, root)
            == Effects(entries, dest, root)
               + if IsRegular(h) then [MakeDirs(Dir(PathOf(h, dest))), CreateFile(PathOf(h, dest), Size(h))]
                 else [MakeDirs(PathOf(h, dest))]
  {
    hide Join, Dir, Clean, ValidateHeader, IsRegular;
    HeaderAcceptedIff(h, root);
    assert (entries + [h])[..|entries|] == entries;
  }

  /** Every file of an accepted archive is asked for at its own path with its own size, every directory is
      asked for, and no other file is. */
  lemma {:induction false} EveryEntryIsAskedFor(entries: seq<Header>, dest: string, root: string)
    requires forall h :: h in entries ==> ValidateHeader(h, root).Ok?
    ensures forall h :: h in entries && IsRegular(h) ==>
              CreateFile(PathOf(h, dest), Size(h)) in Effects(entries, dest, root)
    ensures forall h :: h in entries && !IsRegular(h) ==> MakeDirs(PathOf(h, dest)) in Effects(entries, dest, root)
    ensures forall e :: e in Effects(entries, dest, root) && e.CreateFile? ==>
              exists h :: h in entries && IsRegular(h) && e == CreateFile(PathOf(h, dest), Size(h))
  {
    hide Effects, PathOf, Dir, Size, ValidateHeader, IsRegular;
    NoEntries(dest, root);
    if entries != [] {
      var init, h := entries[..|entries| - 1], entries[|entries| - 1];
      assert entries == init + [h];
      EveryEntryIsAskedFor(init, dest, root);
      OneMoreEntry(init, h, dest, root);
    }
  }

  /** Right before a file its directory is asked for. */
  lemma {:induction false} DirectoriesComeFirst(entries: seq<Header>, dest: string, root: string, i: nat)
    requires forall h :: h in entries ==> ValidateHeader(h, root).Ok?
    requires i < |Effects(entries, dest, root)| && Effects(entries, dest, root)[i].CreateFile?
    ensures i > 0 && Effects(entries, dest, root)[i - 1] == MakeDirs(Dir(Effects(entries, dest, root)[i].path))
  {
    hide Effects, PathOf, Dir, Size, ValidateHeader, IsRegular;
    NoEntries(dest, root);
    if entries != [] {
      var init, h := entries[..|entries| - 1], entries[|entries| - 1];
      assert entries == init + [h];
      OneMoreEntry(init, h, dest, root);
      if i < |Effects(init, dest, root)| {
        DirectoriesComeFirst(init, dest, root, i);
      }
    }
  }

  /** Whatever the archive holds, extraction asks only for the root and for paths below it; the one
      exception is the directory of the root itself, if the root is a regular file. */
  lemma EntryStaysBelow(h: Header, dest: string, root: string)
    requires ValidateHeader(h, root).Ok?
    ensures var name := ValidateHeader(h, root).value;
            && Below(Join(dest, name), Join(dest, root))
            && (name != root ==> Below(Dir(Join(dest, name)), Join(dest, root)))
  {
    hide ValidateHeader, Join, Dir, Below, Elements, Rendered, IsAbs, Split;
    var name := ValidateHeader(h, root).value;
    NamesAreBelow(h, root);
    var base, more := Split(root), Split(name)[|Split(root)|..];
    assert Split(name) == base + more;
    assert AllPlain(base) && AllPlain(more);
    JoinAppends(dest, name);
    JoinAppends(dest, root);
    assert Elements(dest) + Split(name) == Elements(dest) + base + more;
    RenderedBelow(Elements(dest) + base, more, IsAbs(dest));
    if name != root {
      DirStaysBelow(dest, base, more);
    }
  }

  lemma DirStaysBelow(dest: string, base: seq<string>, more: seq<string>)
    requires AllPlain(base) && AllPlain(more) && base != [] && more != []
    ensures Below(Dir(Rendered(Elements(dest) + base + more, IsAbs(dest))),
              Rendered(Elements(dest) + base, IsAbs(dest)))
  {
    hide Dir, Below, Elements, Rendered, IsAbs, Resolved;
    var cs, init := Elements(dest) + base, more[..|more| - 1];
    ResolvedBelow(dest, base + more);
    assert cs + more == Elements(dest) + (base + more);
    DirDropsLast(cs + more, IsAbs(dest));
    assert (cs + more)[..|cs + more| - 1] == cs + init;
    RenderedBelow(cs, init, IsAbs(dest));
  }

  predicate EffectBelow(e: Effect, base: string) {
    Below(e.path, base)
  }

  lemma {:induction false} EffectsStayBelow(entries: seq<Header>, dest: string, root: string)
    requires forall h :: h in entries && ValidateHeader(h, root) == Ok(root) ==> !IsRegular(h)
    ensures forall e :: e in Effects(entries, dest, root) ==> EffectBelow(e, Join(dest, root))
  {
    if entries != [] {
      var init, h := entries[..|entries| - 1], entries[|entries| - 1];
      EffectsStayBelow(init, dest, root);
      if ValidateHeader(h, root).Ok? {
        EntryStaysBelow(h, dest, root);
      }
    }
  }

  /** Once inspect has accepted an archive, extract can fail only by failing to write: all its own
      checks pass, it totals the same bytes, within the bound, and it stays below the root. */
  method InspectThenExtract(a: Archive, dest: string, root: string, writes: nat -> bool)
    returns (info: Result<Info, Error>, r: Result<string, Error>, asked: seq<Effect>)
    ensures info.Ok? <==> Acceptable(a, root)
    ensures info.Err? ==> r == Err(info.error) && asked == []
    ensures info.Ok? ==>
              info.value.expandedBytes <= MAX_EXPANDED_SIZE
                  && info.value.expandedBytes == Bytes(Effects(a.entries, dest, root))
    ensures info.Ok? ==> r == Ok(Join(dest, root)) || r == Err(WriteFailed)
    ensures info.Ok? && (forall k :: 0 <= k < |a.entries| ==> writes(k)) ==>
              r == Ok(Join(dest, root)) && asked == Effects(a.entries, dest, root)
    ensures forall e :: e in asked ==> EffectBelow(e, Join(dest, root))
  {
    hide Check, ChecksPass, ValidateHeader, Effects, Bytes, Total, RootWithin, VersionWithin, Join, EffectBelow,
        FailsAt;
    info := Inspect(a, root);
    if info.Err? {
      return info, Err(info.error), [];
    }
    ChecksMean(a.entries, root);
    AllValid(a.entries, root);
    BytesAreTotal(a.entries, dest, root);
    RootIsNoFile(a, root);
    r, asked := Extract(a, dest, root, writes);
    NoFailure(a.entries, root);
    ghost var k: nat :| k <= |a.entries| && asked == Effects(a.entries[..k], dest, root);
    EffectsStayBelow(a.entries[..k], dest, root);
  }

  /** In an accepted archive no two entries end up at the same path, however their names are spelled. */
  lemma EntriesAreSeparate(entries: seq<Header>, dest: string, root: string, j: nat, k: nat)
    requires ChecksPass(entries, |entries|, root) && j < k < |entries|
    ensures ValidateHeader(entries[j], root).Ok? && ValidateHeader(entries[k], root).Ok?
    ensures Join(dest, ValidateHeader(entries[j], root).value) != Join(dest, ValidateHeader(entries[k], root).value)
  {
    hide ValidateHeader, ChecksPass, Join;
    ChecksImply(entries, root);
    var a, b := ValidateHeader(entries[j], root).value, ValidateHeader(entries[k], root).value;
    NamesAreBelow(entries[j], root);
    NamesAreBelow(entries[k], root);
    if Join(dest, a) == Join(dest, b) {
      JoinIsInjective(dest, a, b);
    }
  }

  lemma AllValid(entries: seq<Header>, root: string)
    requires NamesValid(entries, root)
    ensures forall h :: h in entries ==> ValidateHeader(h, root).Ok?
  {
    hide ValidateHeader;
  }

  lemma NoFailure(entries: seq<Header>, root: string)
    requires ChecksPass(entries, |entries|, root)
    ensures forall k: nat, e :: !FailsAt(entries, k, root, e)
  {
    hide Check;
  }

  /** In an accepted archive the root is a directory. */
  lemma RootIsNoFile(a: Archive, root: string)
    requires Acceptable(a, root)
    ensures forall h :: h in a.entries && ValidateHeader(h, root) == Ok(root) ==> !IsRegular(h)
  {
    hide ValidateHeader, ChecksPass;
    ChecksMean(a.entries, root);
    var d :| 0 <= d < |a.entries| && IsRootEntry(a.entries[d], root);
    assert forall k :: 0 <= k < |a.entries| && k != d ==>
        ValidateHeader(a.entries[k], root) != ValidateHeader(a.entries[d], root);
  }

  function Bytes(effects: seq<Effect>): nat {
    if effects == [] then 0
    else Bytes(effects[..|effects| - 1]) + match effects[|effects| - 1] case CreateFile(_, n) => n case MakeDirs(_) => 0
  }

  lemma {:induction false} BytesConcat(a: seq<Effect>, b: seq<Effect>)
    ensures Bytes(a + b) == Bytes(a) + Bytes(b)
  {
    if b == [] {
      assert a + b == a;
    } else {
      assert (a + b)[..|a + b| - 1] == a + b[..|b| - 1];
      BytesConcat(a, b[..|b| - 1]);
    }
  }

  /** The bytes the files are created with are the bytes inspect counted. */
  lemma {:induction false} BytesAreTotal(entries: seq<Header>, dest: string, root: string)
    requires forall h :: h in entries ==> ValidateHeader(h, root).Ok?
    ensures Bytes(Effects(entries, dest, root)) == Total(entries)
  {
    if entries != [] {
      var init, h := entries[..|entries| - 1], entries[|entries| - 1];
      BytesAreTotal(init, dest, root);
      BytesConcat(Effects(init, dest, root), EffectsOf(h, dest, root));
      var dirs, file := [MakeDirs(Dir(Join(dest, ValidateHeader(h, root).value)))],
          [CreateFile(Join(dest, ValidateHeader(h, root).value), Size(h))];
      BytesConcat(dirs, file);
      assert Bytes(dirs) == 0 && Bytes(file) == Size(h);
    }
  }
}
