/**
 Slash-separated paths, as the path library of the original documents them: cleaning by the rules
 for empty, dot and dot-dot elements, joining, and taking the directory of a path.
 */
module Paths {
  function Split(p: string): (cs: seq<string>)
    ensures cs != []
  {
    if p == "" then [""]
    else
      var rest := Split(p[1..]);
      if p[0] == '/' then [""] + rest else [[p[0]] + rest[0]] + rest[1..]
  }

  function Joined(cs: seq<string>): string {
    if cs == [] then "" else if |cs| == 1 then cs[0] else cs[0] + "/" + Joined(cs[1..])
  }

  /** The elements that remain of cs on top of those already resolved. */
  function Resolve(cs: seq<string>, done: seq<string>, rooted: bool): seq<string>
    decreases |cs|
  {
    if cs == [] then done else Resolve(cs[1..], ResolveOne(cs[0], done, rooted), rooted)
  }

  function ResolveOne(c: string, done: seq<string>, rooted: bool): seq<string> {
    if c == "" || c == "." then done
    else if c != ".." then done + [c]
    else if done != [] && done[|done| - 1] != ".." then done[..|done| - 1]
    else if rooted then done
    else done + [c]
  }

  predicate IsAbs(p: string) {
    p != "" && p[0] == '/'
  }

  /** The elements of a path after cleaning. */
  function Elements(p: string): seq<string> {
    Resolve(Split(p), [], IsAbs(p))
  }

  function Rendered(cs: seq<string>, rooted: bool): string {
    if rooted then "/" + Joined(cs) else if cs == [] then "." else Joined(cs)
  }

  function Clean(p: string): string {
    Rendered(Elements(p), IsAbs(p))
  }

  function Join(dir: string, name: string): string {
    if dir == "" then (if name == "" then "" else Clean(name))
    else Clean(if name == "" then dir else dir + "/" + name)
  }

  function UpToLastSlash(p: string): string {
    if p == "" || p[|p| - 1] == '/' then p else UpToLastSlash(p[..|p| - 1])
  }

  function Dir(p: string): string {
    Clean(UpToLastSlash(p))
  }

  /** A real name: not empty, not dot or dot-dot, no slash. */
  predicate Plain(c: string) {
    c != "" && c != "." && c != ".." && '/' !in c
  }

  predicate AllPlain(cs: seq<string>) {
    forall c :: c in cs ==> Plain(c)
  }

  /** path is base itself, or base followed by real names only. */
  predicate Below(path: string, base: string) {
    path == base || (base + "/" <= path && AllPlain(Split(path[|base| + 1..])))
  }

  // ---------------------------------------------------------------- splitting and joining

  lemma {:induction false} SplitHasNoSlash(p: string)
    ensures forall c :: c in Split(p) ==> '/' !in c
  {
    if p != "" {
      SplitHasNoSlash(p[1..]);
    }
  }

  lemma {:induction false} SplitConcat(a: string, b: string)
    ensures Split(a + "/" + b) == Split(a) + Split(b)
  {
    if a == "" {
      assert (a + "/" + b)[1..] == b;
    } else {
      assert (a + "/" + b)[1..] == a[1..] + "/" + b;
      SplitConcat(a[1..], b);
    }
  }

  lemma {:induction false} SplitWhole(c: string)
    requires '/' !in c
    ensures Split(c) == [c]
  {
    if c != "" {
      SplitWhole(c[1..]);
      assert [c[0]] + c[1..] == c;
    }
  }

  lemma {:induction false} SplitJoined(cs: seq<string>)
    requires cs != [] && forall c :: c in cs ==> '/' !in c
    ensures Split(Joined(cs)) == cs
  {
    SplitWhole(cs[0]);
    if |cs| > 1 {
      SplitJoined(cs[1..]);
      SplitConcat(cs[0], Joined(cs[1..]));
      assert cs == [cs[0]] + cs[1..];
    }
  }

  lemma {:induction false} JoinedConcat(a: seq<string>, b: seq<string>)
    requires a != [] && b != []
    ensures Joined(a + b) == Joined(a) + "/" + Joined(b)
  {
    if |a| == 1 {
      assert (a + b)[1..] == b;
    } else {
      JoinedConcat(a[1..], b);
      assert (a + b)[1..] == a[1..] + b;
    }
  }

  // ---------------------------------------------------------------- cleaning

  /** Resolved elements: some dot-dots, only if the path is relative, then real names. */
  ghost predicate Resolved(cs: seq<string>, rooted: bool) {
    && (forall c :: c in cs ==> '/' !in c)
    && (forall i :: 0 <= i < |cs| ==> Plain(cs[i]) || (!rooted && cs[i] == ".."))
    && forall i, j :: 0 <= i < j < |cs| && cs[j] == ".." ==> cs[i] == ".."
  }

  lemma {:induction false} ResolveResolves(cs: seq<string>, done: seq<string>, rooted: bool)
    requires Resolved(done, rooted) && forall c :: c in cs ==> '/' !in c
    ensures Resolved(Resolve(cs, done, rooted), rooted)
    decreases |cs|
  {
    if cs != [] {
      ResolveResolves(cs[1..], ResolveOne(cs[0], done, rooted), rooted);
    }
  }

  lemma {:induction false} ResolveConcat(a: seq<string>, b: seq<string>, done: seq<string>, rooted: bool)
    ensures Resolve(a + b, done, rooted) == Resolve(b, Resolve(a, done, rooted), rooted)
    decreases |a|
  {
    if a == [] {
      assert a + b == b;
    } else {
      assert (a + b)[1..] == a[1..] + b;
      ResolveConcat(a[1..], b, ResolveOne(a[0], done, rooted), rooted);
    }
  }

  lemma {:induction false} ResolvePlain(cs: seq<string>, done: seq<string>, rooted: bool)
    requires AllPlain(cs)
    ensures Resolve(cs, done, rooted) == done + cs
    decreases |cs|
  {
    if cs == [] {
      assert done + cs == done;
    } else {
      assert Plain(cs[0]);
      ResolvePlain(cs[1..], done + [cs[0]], rooted);
      assert done + [cs[0]] + cs[1..] == done + cs;
    }
  }

  lemma DotDotFirst(cs: seq<string>)
    ensures cs != [] && cs[0] == ".." ==> Joined(cs) == ".." || "../" <= Joined(cs)
  {
    if |cs| > 1 && cs[0] == ".." {
      assert Joined(cs) == "../" + Joined(cs[1..]);
    }
  }

  /** A clean relative path that does not climb consists of real names. */
  lemma CleanIsPlain(p: string)
    requires p != "" && !IsAbs(p)
    requires Clean(p) != "." && Clean(p) != ".." && !("../" <= Clean(p))
    ensures AllPlain(Split(Clean(p))) && Split(Clean(p)) == Elements(p)
  {
    var cs := Elements(p);
    SplitHasNoSlash(p);
    ResolveResolves(Split(p), [], false);
    SplitJoined(cs);
    DotDotFirst(cs);
    assert forall i :: 0 <= i < |cs| ==> Plain(cs[i]) by {
      assert Plain(cs[0]);
    }
  }

  lemma SplitFirst(p: string)
    ensures p == "" || IsAbs(p) <==> Split(p)[0] == ""
  {
  }

  /** Joining real names to a directory keeps the directory and appends the names. */
  lemma JoinAppends(dir: string, name: string)
    requires AllPlain(Split(name))
    ensures Join(dir, name) == Rendered(Elements(dir) + Split(name), IsAbs(dir))
  {
    SplitFirst(name);
    assert Plain(Split(name)[0]);
    if dir == "" {
      ResolvePlain(Split(name), [], false);
      assert Elements("") == [];
      assert [] + Split(name) == Split(name);
    } else {
      SplitConcat(dir, name);
      ResolveConcat(Split(dir), Split(name), [], IsAbs(dir));
      ResolvePlain(Split(name), Elements(dir), IsAbs(dir));
      assert IsAbs(dir + "/" + name) == IsAbs(dir);
    }
  }

  /** More real names lead below. */
  lemma RenderedBelow(cs: seq<string>, more: seq<string>, rooted: bool)
    requires cs != [] && AllPlain(more)
    ensures Below(Rendered(cs + more, rooted), Rendered(cs, rooted))
  {
    hide Joined, Split, Plain;
    var base := Rendered(cs, rooted);
    if more == [] {
      assert cs + more == cs;
    } else {
      assert forall c :: c in more ==> '/' !in c by { PlainHasNoSlash(more); }
      SplitJoined(more);
      RenderedConcat(cs, more, rooted);
      BelowBy(base, Joined(more));
    }
  }

  lemma PlainHasNoSlash(cs: seq<string>)
    requires AllPlain(cs)
    ensures forall c :: c in cs ==> '/' !in c
  {
  }

  lemma RenderedConcat(cs: seq<string>, more: seq<string>, rooted: bool)
    requires cs != [] && more != []
    ensures Rendered(cs + more, rooted) == Rendered(cs, rooted) + "/" + Joined(more)
  {
    hide Joined;
    JoinedConcat(cs, more);
    Regroup("/", Joined(cs), "/", Joined(more));
  }

  lemma Regroup(a: string, b: string, c: string, d: string)
    ensures a + (b + c + d) == a + b + c + d
  {
  }

  lemma BelowBy(base: string, tail: string)
    requires AllPlain(Split(tail))
    ensures Below(base + "/" + tail, base)
  {
    hide Split, AllPlain;
    var slash := "/";
    var path := base + slash + tail;
    assert path[|base| + 1..] == tail;
  }

  lemma {:induction false} UpToLastSlashCuts(a: string, c: string)
    requires '/' !in c
    ensures UpToLastSlash(a + "/" + c) == a + "/"
  {
    var p := a + "/" + c;
    if c == "" {
      assert p == a + "/";
    } else {
      assert p[..|p| - 1] == a + "/" + c[..|c| - 1];
      UpToLastSlashCuts(a, c[..|c| - 1]);
    }
  }

  /** Rendering what is resolved and taking its elements again changes nothing, slash or no slash. */
  lemma ElementsOfRendered(cs: seq<string>, rooted: bool)
    requires cs != [] && Resolved(cs, rooted)
    ensures var p := Rendered(cs, rooted);
            IsAbs(p) == rooted && Elements(p) == cs && IsAbs(p + "/") == rooted && Elements(p + "/") == cs
  {
    var p := Rendered(cs, rooted);
    assert cs[0] in cs;
    SplitJoined(cs);
    ResolveAgain(cs, rooted);
    if rooted {
      assert p == "" + "/" + Joined(cs);
      SplitConcat("", Joined(cs));
      ResolveConcat([""], cs, [], rooted);
      assert Split(p) == [""] + cs;
    } else {
      JoinedStarts(cs);
    }
    assert p + "/" == p + "/" + "";
    SplitConcat(p, "");
    ResolveConcat(Split(p), [""], [], rooted);
  }

  /** The directory of a joined path drops the last name. */
  lemma DirDropsLast(cs: seq<string>, rooted: bool)
    requires |cs| > 1 && Resolved(cs, rooted)
    ensures Dir(Rendered(cs, rooted)) == Rendered(cs[..|cs| - 1], rooted)
  {
    var init, last := cs[..|cs| - 1], cs[|cs| - 1];
    assert cs == init + [last];
    assert last in cs;
    JoinedConcat(init, [last]);
    assert Rendered(cs, rooted) == Rendered(init, rooted) + "/" + last;
    UpToLastSlashCuts(Rendered(init, rooted), last);
    ElementsOfRendered(init, rooted);
  }

  /** What is resolved stays as it is. */
  lemma {:induction false} ResolveAgain(cs: seq<string>, rooted: bool)
    requires Resolved(cs, rooted)
    ensures Resolve(cs, [], rooted) == cs
  {
    if cs != [] {
      var init, last := cs[..|cs| - 1], cs[|cs| - 1];
      assert cs == init + [last];
      ResolveAgain(init, rooted);
      ResolveConcat(init, [last], [], rooted);
      assert Resolve([last], init, rooted) == ResolveOne(last, init, rooted);
    }
  }

  lemma JoinedStarts(cs: seq<string>)
    requires cs != [] && cs[0] != "" && '/' !in cs[0]
    ensures Joined(cs) != "" && Joined(cs)[0] == cs[0][0] && !IsAbs(Joined(cs))
  {
  }

  lemma {:induction false} JoinedSplit(p: string)
    ensures Joined(Split(p)) == p
  {
    if p != "" {
      JoinedSplit(p[1..]);
      var rest := Split(p[1..]);
      if p[0] == '/' {
        JoinedConcat([""], rest);
        assert p == "" + "/" + p[1..];
      } else if |rest| > 1 {
        JoinedConcat([[p[0]] + rest[0]], rest[1..]);
        JoinedConcat([rest[0]], rest[1..]);
        assert rest == [rest[0]] + rest[1..];
        assert p == [p[0]] + (rest[0] + "/" + Joined(rest[1..]));
      }
    }
  }

  /** Different names lead to different paths. */
  lemma JoinIsInjective(dir: string, a: string, b: string)
    requires AllPlain(Split(a)) && AllPlain(Split(b)) && Join(dir, a) == Join(dir, b)
    ensures a == b
  {
    hide Join, Elements, Rendered, Split, Resolved;
    JoinAppends(dir, a);
    JoinAppends(dir, b);
    ResolvedBelow(dir, Split(a));
    ResolvedBelow(dir, Split(b));
    ElementsOfRendered(Elements(dir) + Split(a), IsAbs(dir));
    ElementsOfRendered(Elements(dir) + Split(b), IsAbs(dir));
    assert Split(a) == (Elements(dir) + Split(a))[|Elements(dir)|..];
    assert Split(b) == (Elements(dir) + Split(b))[|Elements(dir)|..];
    JoinedSplit(a);
    JoinedSplit(b);
  }

  /** A directory's elements, and real names after them. */
  lemma ResolvedBelow(dir: string, more: seq<string>)
    requires AllPlain(more)
    ensures Resolved(Elements(dir) + more, IsAbs(dir))
  {
    SplitHasNoSlash(dir);
    ResolveResolves(Split(dir), [], IsAbs(dir));
    assert forall i :: 0 <= i < |more| ==> Plain(more[i]);
  }
}
