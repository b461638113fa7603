/**
 The pieces of the string library that the resolver file goes through: white space, fields, lines
 as a scanner delivers them, and the size of a text in UTF-8.
 */
module Text {
  predicate IsSpace(c: char) {
    c in {'\t', '\n', '\U{0b}', '\U{0c}', '\r', ' ', '\U{85}', '\U{a0}', '\U{1680}', '\U{2028}', '\U{2029}', '\U{202f}',
        '\U{205f}', '\U{3000}'}
    || '\U{2000}' <= c <= '\U{200a}'
  }

  function Trim(s: string): string
    decreases |s|
  {
    if s == "" then ""
    else if IsSpace(s[0]) then Trim(s[1..])
    else if IsSpace(s[|s| - 1]) then Trim(s[..|s| - 1])
    else s
  }

  /** The maximal runs of characters that are not white space. */
  function Fields(s: string): (fs: seq<string>)
    ensures s != "" && !IsSpace(s[0]) ==> fs != []
  {
    if s == "" then []
    else if IsSpace(s[0]) then Fields(s[1..])
    else if |s| == 1 || IsSpace(s[1]) then [[s[0]]] + Fields(s[1..])
    else
      var rest := Fields(s[1..]);
      [[s[0]] + rest[0]] + rest[1..]
  }

  /** The lines of a text; a newline at the very end does not begin another line. */
  function RawLines(text: string): seq<string> {
    if text == "" then []
    else
      var rest := RawLines(text[1..]);
      if text[0] == '\n' then [""] + rest
      else if rest == [] then [[text[0]]]
      else [[text[0]] + rest[0]] + rest[1..]
  }

  function DropCR(line: string): string {
    if line != "" && line[|line| - 1] == '\r' then line[..|line| - 1] else line
  }

  function Utf8Width(c: char): nat {
    if c < '\U{80}' then 1 else if c < '\U{800}' then 2 else if c < '\U{10000}' then 3 else 4
  }

  function Utf8Size(s: string): nat {
    if s == "" then 0 else Utf8Width(s[0]) + Utf8Size(s[1..])
  }

  /** A non-empty word without white space. */
  predicate Word(w: string) {
    w != "" && forall c :: c in w ==> !IsSpace(c)
  }

  function Spaced(words: seq<string>): string {
    if words == [] then "" else if |words| == 1 then words[0] else words[0] + " " + Spaced(words[1..])
  }

  /** Lines, each with its newline. */
  function Terminated(lines: seq<string>): string {
    if lines == [] then "" else lines[0] + "\n" + Terminated(lines[1..])
  }

  lemma {:induction false} FieldsAreWords(s: string)
    ensures forall w :: w in Fields(s) ==> Word(w) && forall c :: c in w ==> c in s
  {
    if s != "" {
      FieldsAreWords(s[1..]);
      if !IsSpace(s[0]) && |s| > 1 && !IsSpace(s[1]) {
        var rest := Fields(s[1..]);
        assert rest[0] in rest;
      }
    }
  }

  lemma {:induction false} FieldsOfWordThen(w: string, rest: string)
    requires Word(w) && (rest == "" || IsSpace(rest[0]))
    ensures Fields(w + rest) == [w] + Fields(rest)
  {
    assert (w + rest)[1..] == w[1..] + rest;
    assert w[0] in w;
    if |w| == 1 {
      assert w == [w[0]];
    } else {
      assert w[1] in w;
      FieldsOfWordThen(w[1..], rest);
      assert [w[0]] + w[1..] == w;
    }
  }

  /** Splitting what was joined with spaces gives the words back. */
  lemma {:induction false} FieldsOfSpaced(words: seq<string>)
    requires forall w :: w in words ==> Word(w)
    ensures Fields(Spaced(words)) == words
  {
    if |words| == 1 {
      FieldsOfWordThen(words[0], "");
      assert words[0] + "" == words[0];
    } else if |words| > 1 {
      var rest := " " + Spaced(words[1..]);
      FieldsOfWordThen(words[0], rest);
      assert rest[1..] == Spaced(words[1..]);
      FieldsOfSpaced(words[1..]);
      assert words[0] + rest == Spaced(words);
      assert words == [words[0]] + words[1..];
    }
  }

  lemma {:induction false} RawLinesOfLineThen(line: string, rest: string)
    requires '\n' !in line
    ensures RawLines(line + "\n" + rest) == [line] + RawLines(rest)
  {
    if line == "" {
      assert (line + "\n" + rest)[1..] == rest;
    } else {
      assert (line + "\n" + rest)[1..] == line[1..] + "\n" + rest;
      RawLinesOfLineThen(line[1..], rest);
      assert [line[0]] + line[1..] == line;
    }
  }

  /** Scanning what was written line by line gives the lines back. */
  lemma {:induction false} RawLinesOfTerminated(lines: seq<string>)
    requires forall l :: l in lines ==> '\n' !in l
    ensures RawLines(Terminated(lines)) == lines
  {
    if lines != [] {
      RawLinesOfLineThen(lines[0], Terminated(lines[1..]));
      RawLinesOfTerminated(lines[1..]);
      assert lines == [lines[0]] + lines[1..];
    }
  }

  lemma {:induction false} TrimKeepsWords(w: string)
    requires Word(w)
    ensures Trim(w) == w
  {
    assert w[0] in w && w[|w| - 1] in w;
  }

  lemma {:induction false} SizeIsAtLeastLength(s: string)
    ensures Utf8Size(s) >= |s|
    ensures (forall c :: c in s ==> c < '\U{80}') ==> Utf8Size(s) == |s|
  {
    if s != "" {
      assert s[0] in s && forall c :: c in s[1..] ==> c in s;
      SizeIsAtLeastLength(s[1..]);
    }
  }

  lemma {:induction false} SpacedHolds(words: seq<string>, c: char)
    requires c in Spaced(words)
    ensures c == ' ' || exists w :: w in words && c in w
  {
    if |words| > 1 && c !in words[0] && c != ' ' {
      SpacedHolds(words[1..], c);
    }
  }

  lemma {:induction false} SizeConcat(a: string, b: string)
    ensures Utf8Size(a + b) == Utf8Size(a) + Utf8Size(b)
  {
    if a == "" {
      assert a + b == b;
    } else {
      assert (a + b)[1..] == a[1..] + b;
      SizeConcat(a[1..], b);
    }
  }
}
