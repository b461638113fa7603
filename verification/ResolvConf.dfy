/**
 The resolver file: parsing, normalising and rendering. Whether a word is an address, and how it is
 printed, is the parameter `canon`; `Canonical` states what is assumed of it, namely that printing
 and parsing are inverse and that a printed address is one word without a comment mark.
 */
module ResolvConf {
  import opened Wrappers
  import opened Text

  datatype Config = Config(servers: seq<string>, searchDomains: seq<string>)

  datatype Error = CannotOpen | LineTooLong | InvalidServer(server: string) | NoServers

  /** The scanner's buffer holds 64 KiB, including the newline. */
  const MAX_LINE := 65535

  type Canon = string -> Option<string>

  predicate Token(w: string) {
    Word(w) && '#' !in w
  }

  ghost predicate Canonical(canon: Canon) {
    forall s: string :: canon(s).Some? ==> Token(canon(s).value) && canon(canon(s).value) == canon(s)
  }

  // ---------------------------------------------------------------- specification functions

  function StripComment(value: string): string {
    if value == "" || value[0] == '#' then "" else [value[0]] + StripComment(value[1..])
  }

  function NormalServer(server: string): string {
    var fields := Fields(Trim(StripComment(server)));
    if fields == [] then "" else fields[0]
  }

  /** A word joins the words unless it is among them already. */
  function Added(words: seq<string>, w: string): seq<string> {
    if w in words then words else words + [w]
  }

  function NormalServers(servers: seq<string>, canon: Canon): Result<seq<string>, Error> {
    if servers == [] then Ok([])
    else
      var init := NormalServers(servers[..|servers| - 1], canon);
      var server := NormalServer(servers[|servers| - 1]);
      if init.Err? || server == "" then init
      else if canon(server).None? then Err(InvalidServer(server))
      else Ok(Added(init.value, canon(server).value))
  }

  function NormalDomains(domains: seq<string>): seq<string> {
    if domains == [] then []
    else
      var init, domain := NormalDomains(domains[..|domains| - 1]), Trim(domains[|domains| - 1]);
      if domain == "" then init else Added(init, domain)
  }

  function LineFields(line: string): seq<string> {
    Fields(StripComment(DropCR(line)))
  }

  function LineServers(line: string): seq<string> {
    var fields := LineFields(line);
    if |fields| >= 2 && fields[0] == "nameserver" then [fields[1]] else []
  }

  function LineDomains(line: string): seq<string> {
    var fields := LineFields(line);
    if |fields| < 2 then []
    else if fields[0] == "search" then fields[1..]
    else if fields[0] == "domain" then [fields[1]]
    else []
  }

  function Servers(lines: seq<string>): seq<string> {
    if lines == [] then [] else Servers(lines[..|lines| - 1]) + LineServers(lines[|lines| - 1])
  }

  function Domains(lines: seq<string>): seq<string> {
    if lines == [] then [] else Domains(lines[..|lines| - 1]) + LineDomains(lines[|lines| - 1])
  }

  predicate LineFits(line: string) {
    Utf8Size(line) <= MAX_LINE
  }

  predicate LinesFit(lines: seq<string>) {
    forall l :: l in lines ==> LineFits(l)
  }

  function Parsed(text: string, canon: Canon): Result<Config, Error> {
    var lines := RawLines(text);
    if !LinesFit(lines) then Err(LineTooLong)
    else
      match NormalServers(Servers(lines), canon)
      case Err(e) => Err(e)
      case Ok(servers) => Ok(Config(servers, NormalDomains(Domains(lines))))
  }

  function ServerLines(servers: seq<string>): seq<string> {
    if servers == [] then [] else ["nameserver " + servers[0]] + ServerLines(servers[1..])
  }

  function ConfigLines(config: Config): seq<string> {
    (if config.searchDomains == [] then [] else ["search " + Spaced(config.searchDomains)])
        + ServerLines(config.servers)
  }

  function Rendered(config: Config, canon: Canon): Result<string, Error> {
    match NormalServers(config.servers, canon)
    case Err(e) => Err(e)
    case Ok(servers) =>
      if servers == [] then Err(NoServers)
      else Ok(Terminated(ConfigLines(Config(servers, NormalDomains(config.searchDomains)))))
  }

  // ---------------------------------------------------------------- the code

  method NormalizeServers(servers: seq<string>, canon: Canon) returns (r: Result<seq<string>, Error>)
    ensures r == NormalServers(servers, canon)
  {
    var seen: set<string>, normalized: seq<string> := {}, [];
    for i := 0 to |servers|
      invariant forall s :: s in seen <==> s in normalized
      invariant NormalServers(servers[..i], canon) == Ok(normalized)
    {
      assert servers[..i + 1][..i] == servers[..i];
      var server := NormalServer(servers[i]);
      if server == "" {
        continue;
      }
      var ip := canon(server);
      if ip.None? {
        FirstErrorStays(servers, i + 1, canon);
        return Err(InvalidServer(server));
      }
      if ip.value in seen {
        continue;
      }
      seen := seen + {ip.value};
      normalized := normalized + [ip.value];
    }
    assert servers[..|servers|] == servers;
    return Ok(normalized);
  }

  lemma {:induction false} FirstErrorStays(servers: seq<string>, n: nat, canon: Canon)
    requires n <= |servers| && NormalServers(servers[..n], canon).Err?
    ensures NormalServers(servers, canon) == NormalServers(servers[..n], canon)
    decreases |servers|
  {
    if n < |servers| {
      assert servers[..|servers| - 1][..n] == servers[..n];
      FirstErrorStays(servers[..|servers| - 1], n, canon);
    } else {
      assert servers[..n] == servers;
    }
  }

  method NormalizeDomains(domains: seq<string>) returns (normalized: seq<string>)
    ensures normalized == NormalDomains(domains)
  {
    var seen: set<string> := {};
    normalized := [];
    for i := 0 to |domains|
      invariant forall s :: s in seen <==> s in normalized
      invariant normalized == NormalDomains(domains[..i])
    {
      assert domains[..i + 1][..i] == domains[..i];
      var domain := Trim(domains[i]);
      if domain == "" {
        continue;
      }
      if domain in seen {
        continue;
      }
      seen := seen + {domain};
      normalized := normalized + [domain];
    }
    assert domains[..|domains|] == domains;
  }

  lemma NoLines(lines: seq<string>)
    ensures Servers(lines[..0]) == [] && Domains(lines[..0]) == []
  {
  }

  lemma NextLine(lines: seq<string>, i: nat)
    requires i < |lines|
    ensures Servers(lines[..i + 1]) == Servers(lines[..i]) + LineServers(lines[i])
    ensures Domains(lines[..i + 1]) == Domains(lines[..i]) + LineDomains(lines[i])
  {
    hide LineServers, LineDomains;
    assert lines[..i + 1][..i] == lines[..i];
  }

  /** `text` is the file's content, if it can be opened. */
  method Parse(text: Option<string>, canon: Canon) returns (r: Result<Config, Error>)
    ensures r == if text.None? then Err(CannotOpen) else Parsed(text.value, canon)
  {
    hide Servers, Domains, LineFits, NormalServers, NormalDomains, RawLines;
    if text.None? {
      return Err(CannotOpen);
    }
    var lines := RawLines(text.value);
    var servers: seq<string>, domains: seq<string> := [], [];
    NoLines(lines);
    var i := 0;
    while i < |lines| && LineFits(lines[i])
      invariant i <= |lines|
      invariant forall k :: 0 <= k < i ==> LineFits(lines[k])
      invariant servers == Servers(lines[..i]) && domains == Domains(lines[..i])
    {
      var line := StripComment(DropCR(lines[i]));
      var fields := Fields(line);
      NextLine(lines, i);
      i := i + 1;
      if |fields| < 2 {
        continue;
      }
      if fields[0] == "nameserver" {
        servers := servers + [fields[1]];
      } else if fields[0] == "search" {
        domains := domains + fields[1..];
      } else if fields[0] == "domain" {
        domains := domains + [fields[1]];
      }
    }
    if i < |lines| {
      assert lines[i] in lines;
      return Err(LineTooLong);
    }
    assert lines[..i] == lines;
    var normalized := NormalizeServers(servers, canon);
    if normalized.Err? {
      return Err(normalized.error);
    }
    var searchDomains := NormalizeDomains(domains);
    return Ok(Config(normalized.value, searchDomains));
  }

  method Render(config: Config, canon: Canon) returns (r: Result<string, Error>)
    ensures r == Rendered(config, canon)
  {
    hide NormalServers, NormalDomains, ServerLines, Terminated;
    var normalized := NormalizeServers(config.servers, canon);
    if normalized.Err? {
      return Err(normalized.error);
    }
    if |normalized.value| == 0 {
      return Err(NoServers);
    }
    var servers := normalized.value;
    var text := "";
    var searchDomains := NormalizeDomains(config.searchDomains);
    if |searchDomains| > 0 {
      text := "search " + Spaced(searchDomains) + "\n";
    }
    ghost var head := text;
    HeadThenServers(Config(servers, searchDomains));
    assert servers[0..] == servers;
    for i := 0 to |servers|
      invariant text + Terminated(ServerLines(servers[i..])) == head + Terminated(ServerLines(servers))
    {
      NextServer(text, servers[i..]);
      assert servers[i..][1..] == servers[i + 1..];
      text := text + "nameserver " + servers[i] + "\n";
    }
    NoServerLeft(text, servers[|servers|..]);
    return Ok(text);
  }

  lemma NextServer(text: string, servers: seq<string>)
    requires servers != []
    ensures text + Terminated(ServerLines(servers))
            == text + "nameserver " + servers[0] + "\n" + Terminated(ServerLines(servers[1..]))
  {
    var keyword, newline, lines := "nameserver ", "\n", ServerLines(servers[1..]);
    assert ServerLines(servers) == [keyword + servers[0]] + lines;
    hide ServerLines;
    assert ([keyword + servers[0]] + lines)[1..] == lines;
    Reassociate(text, keyword, servers[0], newline, Terminated(lines));
  }

  lemma Reassociate(t: string, a: string, b: string, c: string, d: string)
    ensures t + ((a + b) + c + d) == t + a + b + c + d
  {
  }

  lemma NoServerLeft(text: string, servers: seq<string>)
    requires servers == []
    ensures text + Terminated(ServerLines(servers)) == text
  {
  }

  lemma HeadThenServers(config: Config)
    ensures var head := if config.searchDomains == [] then "" else "search " + Spaced(config.searchDomains) + "\n";
            Terminated(ConfigLines(config)) == head + Terminated(ServerLines(config.servers))
  {
    if config.searchDomains != [] {
      assert ConfigLines(config)[1..] == ServerLines(config.servers);
    } else {
      assert ConfigLines(config) == ServerLines(config.servers);
    }
  }

  // ---------------------------------------------------------------- what a parsed configuration is

  ghost predicate AllDistinct(words: seq<string>) {
    forall i, j :: 0 <= i < j < |words| ==> words[i] != words[j]
  }

  ghost predicate Tokens(words: seq<string>) {
    forall w :: w in words ==> Token(w)
  }

  ghost predicate Normal(config: Config, canon: Canon) {
    && AllDistinct(config.servers) && AllDistinct(config.searchDomains)
    && (forall s :: s in config.servers ==> canon(s) == Some(s))
    && Tokens(config.servers) && Tokens(config.searchDomains)
  }

  lemma {:induction false} StrippedIsPart(value: string)
    ensures '#' !in StripComment(value)
  {
    if value != "" && value[0] != '#' {
      StrippedIsPart(value[1..]);
    }
  }

  lemma {:induction false} StripKeeps(value: string)
    requires '#' !in value
    ensures StripComment(value) == value
  {
    if value != "" {
      assert value[0] in value;
      StripKeeps(value[1..]);
    }
  }

  lemma FieldsAreTokens(line: string)
    ensures Tokens(LineFields(line))
  {
    StrippedIsPart(DropCR(line));
    FieldsAreWords(StripComment(DropCR(line)));
  }

  lemma {:induction false} DomainsAreTokens(lines: seq<string>)
    ensures Tokens(Domains(lines))
  {
    if lines != [] {
      DomainsAreTokens(lines[..|lines| - 1]);
      FieldsAreTokens(lines[|lines| - 1]);
    }
  }

  lemma {:induction false} NormalDomainsAreNormal(domains: seq<string>)
    requires Tokens(domains)
    ensures Tokens(NormalDomains(domains)) && AllDistinct(NormalDomains(domains))
  {
    if domains != [] {
      var last := domains[|domains| - 1];
      NormalDomainsAreNormal(domains[..|domains| - 1]);
      assert Token(last);
      TrimKeepsWords(last);
    }
  }

  lemma {:induction false} NormalServersAreNormal(servers: seq<string>, canon: Canon)
    requires Canonical(canon) && NormalServers(servers, canon).Ok?
    ensures var r := NormalServers(servers, canon).value;
            Tokens(r) && AllDistinct(r) && forall s :: s in r ==> canon(s) == Some(s)
  {
    if servers != [] {
      NormalServersAreNormal(servers[..|servers| - 1], canon);
    }
  }

  /** What a file parses to is normal: distinct canonical addresses and distinct words. */
  lemma ParsedIsNormal(text: string, canon: Canon)
    requires Canonical(canon) && Parsed(text, canon).Ok?
    ensures Normal(Parsed(text, canon).value, canon)
  {
    var lines := RawLines(text);
    NormalServersAreNormal(Servers(lines), canon);
    DomainsAreTokens(lines);
    NormalDomainsAreNormal(Domains(lines));
  }

  // ---------------------------------------------------------------- the round trip

  lemma TokenIsNormalServer(s: string)
    requires Token(s)
    ensures NormalServer(s) == s
  {
    StripKeeps(s);
    TrimKeepsWords(s);
    FieldsOfWordThen(s, "");
    assert s + "" == s;
  }

  /** Normalising what is normal changes nothing. */
  lemma {:induction false} NormalServersStay(servers: seq<string>, canon: Canon)
    requires Tokens(servers) && AllDistinct(servers) && forall s :: s in servers ==> canon(s) == Some(s)
    ensures NormalServers(servers, canon) == Ok(servers)
  {
    if servers != [] {
      var init, last := servers[..|servers| - 1], servers[|servers| - 1];
      assert servers == init + [last] && last in servers;
      assert AllDistinct(init) && last !in init;
      NormalServersStay(init, canon);
      TokenIsNormalServer(last);
    }
  }

  lemma {:induction false} NormalDomainsStay(domains: seq<string>)
    requires Tokens(domains) && AllDistinct(domains)
    ensures NormalDomains(domains) == domains
  {
    if domains != [] {
      var init, last := domains[..|domains| - 1], domains[|domains| - 1];
      assert domains == init + [last] && last in domains;
      assert AllDistinct(init) && last !in init;
      NormalDomainsStay(init);
      TrimKeepsWords(last);
    }
  }

  /** A line made of a keyword and tokens is read back as such. */
  lemma KeywordLine(keyword: string, words: seq<string>)
    requires Token(keyword) && Tokens(words) && words != []
    ensures var line := keyword + " " + Spaced(words);
            LineFields(line) == [keyword] + words && '\n' !in line
  {
    var all := [keyword] + words;
    var line := Spaced(all);
    assert all[1..] == words;
    assert line == keyword + " " + Spaced(words);
    assert forall w :: w in all ==> Token(w);
    forall c | c in line ensures c != '#' && c != '\n' && c != '\r' { SpacedHolds(all, c); }
    assert line[|line| - 1] in line;
    assert DropCR(line) == line;
    StripKeeps(line);
    FieldsOfSpaced(all);
  }

  lemma ServerLine(server: string)
    requires Token(server)
    ensures var line := "nameserver " + server;
            LineServers(line) == [server] && LineDomains(line) == [] && '\n' !in line
  {
    KeywordLine("nameserver", [server]);
    assert "nameserver" + " " + Spaced([server]) == "nameserver " + server;
  }

  lemma SearchLine(domains: seq<string>)
    requires Tokens(domains) && domains != []
    ensures var line := "search " + Spaced(domains);
            LineServers(line) == [] && LineDomains(line) == domains && '\n' !in line
  {
    KeywordLine("search", domains);
    assert "search" + " " + Spaced(domains) == "search " + Spaced(domains);
  }

  lemma DomainLine(domain: string)
    requires Token(domain)
    ensures var line := "domain " + domain;
            LineServers(line) == [] && LineDomains(line) == [domain] && '\n' !in line
  {
    KeywordLine("domain", [domain]);
    assert "domain" + " " + Spaced([domain]) == "domain " + domain;
  }

  lemma {:induction false} StripAtMark(a: string, b: string)
    requires '#' !in a
    ensures StripComment(a + "#" + b) == a
  {
    if a != "" {
      assert a[0] in a;
      assert (a + "#" + b)[1..] == a[1..] + "#" + b;
      StripAtMark(a[1..], b);
    } else {
      assert a + "#" + b == "#" + b;
    }
  }

  /** What follows a comment mark plays no part, and so a line that begins with one says nothing. */
  lemma CommentsAreIgnored(a: string, b: string)
    requires '#' !in a
    ensures LineFields(a + "#" + b) == Fields(a)
    ensures LineServers("#" + b) == [] && LineDomains("#" + b) == []
  {
    MarkStays(a, b);
    StripAtMark(a, if b != "" && b[|b| - 1] == '\r' then b[..|b| - 1] else b);
    MarkStays("", b);
    StripAtMark("", if b != "" && b[|b| - 1] == '\r' then b[..|b| - 1] else b);
    assert "" + "#" + b == "#" + b;
  }

  lemma MarkStays(a: string, b: string)
    ensures DropCR(a + "#" + b) == a + "#" + if b != "" && b[|b| - 1] == '\r' then b[..|b| - 1] else b
  {
  }

  /** A line of any other keyword, or of a keyword alone, says nothing. */
  lemma OtherLinesAreIgnored(line: string)
    requires var fields := LineFields(line);
             |fields| < 2 || fields[0] !in {"nameserver", "search", "domain"}
    ensures LineServers(line) == [] && LineDomains(line) == []
  {
  }

  // ---------------------------------------------------------------- what normalising does

  predicate Blank(server: string) {
    NormalServer(server) == ""
  }

  predicate Invalid(server: string, canon: Canon) {
    !Blank(server) && canon(NormalServer(server)).None?
  }

  /** This word is the canonical form of one of the servers. */
  ghost predicate FormOf(servers: seq<string>, canon: Canon, w: string) {
    exists s :: s in servers && !Blank(s) && canon(NormalServer(s)) == Some(w)
  }

  /** Servers normalise exactly if none is invalid, and then to the canonical forms of those that are
      not blank, each once, in the order in which they come first; otherwise the first invalid one is
      named. */
  lemma {:induction false} NormalServersMean(servers: seq<string>, canon: Canon)
    ensures NormalServers(servers, canon).Ok? <==> forall s :: s in servers ==> !Invalid(s, canon)
    ensures NormalServers(servers, canon).Ok? ==>
              var r := NormalServers(servers, canon).value;
              && AllDistinct(r) && (forall w :: w in r <==> FormOf(servers, canon, w))
              && (servers != [] ==> NormalServers(servers[..|servers| - 1], canon).Ok?
                                    && NormalServers(servers[..|servers| - 1], canon).value <= r)
    ensures NormalServers(servers, canon).Err? ==>
              exists k :: 0 <= k < |servers| && Invalid(servers[k], canon)
                && NormalServers(servers, canon) == Err(InvalidServer(NormalServer(servers[k])))
                && forall j :: 0 <= j < k ==> !Invalid(servers[j], canon)
  {
    hide NormalServer, NormalServers, Blank, FormOf;
    if servers == [] {
      NoServersYet(canon);
    } else {
      var init, last := servers[..|servers| - 1], servers[|servers| - 1];
      assert servers == init + [last];
      NormalServersMean(init, canon);
      assert forall s :: s in servers <==> s in init || s == last;
      FormsGrow(init, last, canon);
      OneMoreServer(init, last, canon);
      if NormalServers(init, canon).Err? {
        var k :| 0 <= k < |init| && Invalid(init[k], canon)
          && NormalServers(init, canon) == Err(InvalidServer(NormalServer(init[k])))
          && forall j :: 0 <= j < k ==> !Invalid(init[j], canon);
        assert servers[k] == init[k];
      } else if Invalid(last, canon) {
        assert servers[|init|] == last;
        assert forall j :: 0 <= j < |init| ==> servers[j] in init;
      }
    }
  }

  lemma NoServersYet(canon: Canon)
    ensures NormalServers([], canon) == Ok([]) && forall w :: !FormOf([], canon, w)
  {
  }

  lemma OneMoreServer(servers: seq<string>, server: string, canon: Canon)
    ensures var init := NormalServers(servers, canon);
            NormalServers(servers + [server], canon)
            == if init.Err? || Blank(server) then init
               else if Invalid(server, canon) then Err(InvalidServer(NormalServer(server)))
               else Ok(Added(init.value, canon(NormalServer(server)).value))
  {
    hide NormalServer;
    assert (servers + [server])[..|servers|] == servers;
  }

  lemma FormsGrow(init: seq<string>, last: string, canon: Canon)
    ensures forall w :: FormOf(init + [last], canon, w) <==>
              FormOf(init, canon, w) || (!Blank(last) && canon(NormalServer(last)) == Some(w))
  {
    hide NormalServer;
    forall w
      ensures FormOf(init + [last], canon, w) <==>
                FormOf(init, canon, w) || (!Blank(last) && canon(NormalServer(last)) == Some(w))
    {
      if FormOf(init, canon, w) {
        var s :| s in init && !Blank(s) && canon(NormalServer(s)) == Some(w);
        assert s in init + [last];
      }
      if !Blank(last) && canon(NormalServer(last)) == Some(w) {
        assert last in init + [last];
      }
    }
  }

  /** This word is one of the domains, trimmed. */
  ghost predicate WordOf(domains: seq<string>, w: string) {
    exists d :: d in domains && Trim(d) == w
  }

  lemma WordsGrow(init: seq<string>, last: string)
    ensures forall w :: WordOf(init + [last], w) <==> WordOf(init, w) || Trim(last) == w
  {
    hide Trim;
    forall w
      ensures WordOf(init + [last], w) <==> WordOf(init, w) || Trim(last) == w
    {
      if WordOf(init, w) {
        var d :| d in init && Trim(d) == w;
        assert d in init + [last];
      }
      assert last in init + [last];
    }
  }

  /** Domains normalise to the trimmed words that are not empty, each once, in the order in which they
      come first. */
  lemma {:induction false} NormalDomainsMean(domains: seq<string>)
    ensures AllDistinct(NormalDomains(domains))
    ensures forall w :: w in NormalDomains(domains) <==> w != "" && WordOf(domains, w)
    ensures domains != [] ==> NormalDomains(domains[..|domains| - 1]) <= NormalDomains(domains)
  {
    hide Trim, WordOf, NormalDomains;
    if domains != [] {
      var init, last := domains[..|domains| - 1], domains[|domains| - 1];
      assert domains == init + [last];
      NormalDomainsMean(init);
      WordsGrow(init, last);
      OneMoreDomain(init, last);
    } else {
      NoWords();
    }
  }

  lemma NoWords()
    ensures NormalDomains([]) == [] && forall w :: !WordOf([], w)
  {
  }

  lemma OneMoreDomain(domains: seq<string>, domain: string)
    ensures NormalDomains(domains + [domain])
            == if Trim(domain) == "" then NormalDomains(domains) else Added(NormalDomains(domains), Trim(domain))
  {
    hide Trim;
    assert (domains + [domain])[..|domains|] == domains;
  }

  lemma FormIsThere(servers: seq<string>, canon: Canon, s: string)
    requires NormalServers(servers, canon).Ok? && s in servers && !Blank(s)
    ensures NormalServers(servers, canon).value != []
  {
    hide NormalServer, Blank;
    NormalServersMean(servers, canon);
    assert !Invalid(s, canon);
    assert FormOf(servers, canon, canon(NormalServer(s)).value);
  }

  /** A configuration is written exactly if no server is invalid and some server is not blank. */
  lemma RenderedIff(config: Config, canon: Canon)
    ensures Rendered(config, canon).Ok? <==>
              && (forall s :: s in config.servers ==> !Invalid(s, canon))
              && (exists s :: s in config.servers && !Blank(s))
    ensures Rendered(config, canon) == Err(NoServers) <==> forall s :: s in config.servers ==> Blank(s)
  {
    hide NormalServer, NormalServers, NormalDomains, Terminated, Blank;
    NormalServersMean(config.servers, canon);
    var r := NormalServers(config.servers, canon);
    if r.Ok? {
      if r.value != [] {
        assert r.value[0] in r.value;
        assert FormOf(config.servers, canon, r.value[0]);
      }
      forall s | s in config.servers && !Blank(s)
        ensures r.value != []
      {
        FormIsThere(config.servers, canon, s);
      }
    } else {
      var s :| s in config.servers && Invalid(s, canon);
    }
  }

  // ---------------------------------------------------------------- reading lines

  lemma OneMoreLine(lines: seq<string>, line: string)
    ensures Servers(lines + [line]) == Servers(lines) + LineServers(line)
    ensures Domains(lines + [line]) == Domains(lines) + LineDomains(line)
  {
    hide LineServers, LineDomains;
    assert (lines + [line])[..|lines|] == lines;
  }

  lemma {:induction false} ServersConcat(a: seq<string>, b: seq<string>)
    ensures Servers(a + b) == Servers(a) + Servers(b) && Domains(a + b) == Domains(a) + Domains(b)
  {
    hide Servers, Domains, LineServers, LineDomains;
    if b == [] {
      NoLines([]);
      assert a + b == a && Servers(b) == [] && Domains(b) == [];
    } else {
      var init, last := b[..|b| - 1], b[|b| - 1];
      assert b == init + [last] && a + b == a + init + [last];
      ServersConcat(a, init);
      OneMoreLine(a + init, last);
      OneMoreLine(init, last);
    }
  }

  lemma One(line: string)
    ensures Servers([line]) == LineServers(line) && Domains([line]) == LineDomains(line)
  {
    assert Servers([]) == [] && Domains([]) == [];
  }

  lemma ServerLinesNext(servers: seq<string>)
    ensures ServerLines([]) == []
    ensures servers != [] ==> ServerLines(servers) == ["nameserver " + servers[0]] + ServerLines(servers[1..])
  {
  }

  lemma {:induction false} ServerLinesRead(servers: seq<string>)
    requires Tokens(servers)
    ensures Servers(ServerLines(servers)) == servers && Domains(ServerLines(servers)) == []
    ensures forall l :: l in ServerLines(servers) ==> '\n' !in l
  {
    hide Servers, Domains, LineServers, LineDomains, ServerLines, Token;
    NoLines([]);
    ServerLinesNext(servers);
    if servers != [] {
      var line, more := "nameserver " + servers[0], ServerLines(servers[1..]);
      ServerLine(servers[0]);
      ServerLinesRead(servers[1..]);
      ServersConcat([line], more);
      One(line);
    }
  }

  lemma ConfigLinesRead(config: Config)
    requires Tokens(config.servers) && Tokens(config.searchDomains)
    ensures Servers(ConfigLines(config)) == config.servers && Domains(ConfigLines(config)) == config.searchDomains
    ensures RawLines(Terminated(ConfigLines(config))) == ConfigLines(config)
  {
    ServerLinesRead(config.servers);
    if config.searchDomains == [] {
      assert ConfigLines(config) == ServerLines(config.servers);
    } else {
      var line := "search " + Spaced(config.searchDomains);
      SearchLine(config.searchDomains);
      ServersConcat([line], ServerLines(config.servers));
      One(line);
    }
    RawLinesOfTerminated(ConfigLines(config));
  }

  /** Rendering a normal configuration with a server writes its lines; reading them back gives the
      same configuration exactly if every line fits the scanner, and an error otherwise. */
  lemma NormalRoundTrip(config: Config, canon: Canon)
    requires Normal(config, canon) && config.servers != []
    ensures Rendered(config, canon) == Ok(Terminated(ConfigLines(config)))
    ensures Parsed(Terminated(ConfigLines(config)), canon)
            == if LinesFit(ConfigLines(config)) then Ok(config) else Err(LineTooLong)
  {
    NormalServersStay(config.servers, canon);
    NormalDomainsStay(config.searchDomains);
    ConfigLinesRead(config);
  }

  /** For every file that parses with at least one server, parsing what is rendered from it gives the
      same servers and search domains, if and only if every rendered line fits. */
  lemma RoundTrip(text: string, canon: Canon)
    requires Canonical(canon)
    ensures match Parsed(text, canon)
            case Err(_) => true
            case Ok(config) =>
              config.servers != [] ==>
                && Rendered(config, canon).Ok?
                && (Parsed(Rendered(config, canon).value, canon) == Ok(config) <==> LinesFit(ConfigLines(config)))
  {
    hide Parsed, Rendered, Canonical, LinesFit, ConfigLines;
    var parsed := Parsed(text, canon);
    if parsed.Ok? && parsed.value.servers != [] {
      ParsedIsNormal(text, canon);
      NormalRoundTrip(parsed.value, canon);
    }
  }

  lemma SizeOfMerged(a: string, d: string, b: string, e: string)
    ensures Utf8Size(a + (d + (b + e))) >= Utf8Size(d) + Utf8Size(e)
  {
    hide Utf8Size;
    SizeConcat(a, d + (b + e));
    SizeConcat(d, b + e);
    SizeConcat(b, e);
  }

  /** Two search lines and a server line are read as one configuration. */
  lemma TwoSearchLines(d: string, e: string, server: string, canon: Canon)
    requires Token(d) && Token(e) && d != e && Token(server) && canon(server) == Some(server)
    requires LineFits("search " + d) && LineFits("search " + e) && LineFits("nameserver " + server)
    ensures Parsed(Terminated(["search " + d, "search " + e, "nameserver " + server]), canon)
              == Ok(Config([server], [d, e]))
  {
    hide LineFits, LineServers, LineDomains, Token, Terminated, RawLines, NormalServers, NormalDomains, Servers,
        Domains;
    assert Tokens([d]) && Tokens([e]) && Tokens([server]) && Tokens([d, e]);
    assert AllDistinct([d, e]) && AllDistinct([server]);
    var a, b, c := "search " + d, "search " + e, "nameserver " + server;
    SearchLine([d]);
    SearchLine([e]);
    assert Spaced([d]) == d && Spaced([e]) == e;
    ServerLine(server);
    RawLinesOfTerminated([a, b, c]);
    assert [a, b, c] == [a] + ([b] + [c]);
    ServersConcat([a], [b] + [c]);
    ServersConcat([b], [c]);
    One(a);
    One(b);
    One(c);
    assert Servers([a, b, c]) == [server];
    assert Domains([a, b, c]) == [d, e];
    NormalServersStay([server], canon);
    NormalDomainsStay([d, e]);
  }

  /** The limit can be hit: search domains that fit on two lines are rendered on one, and the file
      that was written cannot be read back. */
  lemma MergedSearchLineIsLost(d: string, e: string, server: string, canon: Canon)
    requires Token(d) && Token(e) && d != e && Token(server) && canon(server) == Some(server)
    requires LineFits("search " + d) && LineFits("search " + e) && LineFits("nameserver " + server)
    requires Utf8Size(d) + Utf8Size(e) > MAX_LINE
    ensures var text := Terminated(["search " + d, "search " + e, "nameserver " + server]);
            var config := Config([server], [d, e]);
            && Parsed(text, canon) == Ok(config)
            && Rendered(config, canon).Ok? && Parsed(Rendered(config, canon).value, canon) == Err(LineTooLong)
  {
    hide Parsed, Rendered, Terminated, Utf8Size, Token, ServerLines;
    TwoSearchLines(d, e, server, canon);
    var config := Config([server], [d, e]);
    assert Normal(config, canon);
    NormalRoundTrip(config, canon);
    var search, space := "search ", " ";
    assert Spaced([d, e]) == d + space + e by { assert [d, e][1..] == [e]; }
    assert d + space + e == d + (space + e);
    SizeOfMerged(search, d, space, e);
    assert ConfigLines(config)[0] == search + (d + (space + e));
    assert ConfigLines(config)[0] in ConfigLines(config);
  }

  lemma ManyLetters(keyword: string, letter: char, n: nat)
    requires !IsSpace(letter) && letter != '#' && letter < '\U{80}' && 0 < n && |keyword| + n <= MAX_LINE
    requires forall c :: c in keyword ==> c < '\U{80}'
    ensures var w := seq(n, _ => letter); Token(w) && Utf8Size(w) == n && LineFits(keyword + w)
  {
    var w := seq(n, _ => letter);
    SizeIsAtLeastLength(w);
    SizeIsAtLeastLength(keyword + w);
  }

  lemma ShortServer()
    ensures Token("1.1.1.1") && LineFits("nameserver " + "1.1.1.1")
  {
    SizeIsAtLeastLength("nameserver " + "1.1.1.1");
  }

  /** Two words of forty thousand letters each are such domains. */
  lemma LimitCanBeHit(canon: Canon)
    requires canon("1.1.1.1") == Some("1.1.1.1")
    ensures exists text: string ::
              Parsed(text, canon).Ok? && Rendered(Parsed(text, canon).value, canon).Ok?
              && Parsed(Rendered(Parsed(text, canon).value, canon).value, canon) == Err(LineTooLong)
  {
    hide Parsed, Rendered, Terminated, Utf8Size, Token, LineFits;
    var d, e, server := seq(40_000, _ => 'a'), seq(40_000, _ => 'b'), "1.1.1.1";
    assert d[0] != e[0];
    ManyLetters("search ", 'a', 40_000);
    ManyLetters("search ", 'b', 40_000);
    ShortServer();
    MergedSearchLineIsLost(d, e, server, canon);
  }
}
