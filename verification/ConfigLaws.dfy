/** What reading a config means for any line, also one written by hand, and what a generated file says besides its
    settings. Characters and sizes are spelled out here. */
module ConfigLaws {
  import opened Names
  import opened Wrappers
  import opened ConfigText

  ghost predicate AllIn(s: string, chars: set<char>) { forall i :: 0 <= i < |s| ==> s[i] in chars }

  /** A word that can name a setting. */
  ghost predicate IsWord(n: string) {
    && 0 < |n| <= 255 && (forall i :: 0 <= i < |n| ==> n[i] !in {' ', '\t', '\n', '\r', '\0'})
    && !(|n| > 1 && n[0] == '/' && n[1] == '/')
  }

  /** A value as it stands in a line: it begins with no blank and no quote, and ends in nothing that is stripped. */
  ghost predicate IsPlain(v: string) {
    && '\0' !in v
    && (v != [] ==> v[0] !in {' ', '\t', '"'} && v[|v| - 1] !in {' ', '\t', '\n', '\r', '"'})
  }

  lemma {:induction false} BlanksSkipped(b: string, s: string)
    requires AllIn(b, {' ', '\t'}) && (s != [] ==> s[0] !in {' ', '\t'})
    ensures SkipBlanks(b + s) == s
  {
    if b == [] {
      assert b + s == s;
    } else {
      assert (b + s)[1..] == b[1..] + s;
      BlanksSkipped(b[1..], s);
    }
  }

  lemma {:induction false} BlanksOnlySkip(b: string, e: string)
    requires AllIn(b, {' ', '\t'}) && AllIn(e, {' ', '\t', '\n', '\r', '"'})
    ensures AllIn(SkipBlanks(b + e), {' ', '\t', '\n', '\r', '"'})
  {
    SkipBlanksIs(b + e);
  }

  lemma {:induction false} WordLength(n: string, s: string, room: nat)
    requires |n| <= room && forall i :: 0 <= i < |n| ==> n[i] !in {' ', '\t', '\n', '\r'}
    requires |n| == room || s == [] || s[0] in {' ', '\t', '\n', '\r'}
    ensures NameLength(n + s, room) == |n|
  {
    if n == [] {
      assert n + s == s;
    } else {
      assert (n + s)[1..] == n[1..] + s;
      WordLength(n[1..], s, room - 1);
    }
  }

  lemma {:induction false} NothingTrimmed(v: string)
    requires v != [] ==> v[|v| - 1] !in {' ', '\t', '\n', '\r', '"'}
    ensures TrimEnd(v) == v
  {
  }

  lemma TrimmedTo(v: string, e: string)
    requires IsPlain(v) && AllIn(e, {' ', '\t', '\n', '\r', '"'})
    ensures TrimEnd(v + e) == v
  {
    TrimStripped(v, e);
    NothingTrimmed(v);
  }

  lemma AllTrimmed(e: string)
    requires AllIn(e, {' ', '\t', '\n', '\r', '"'})
    ensures TrimEnd(e) == []
  {
    assert [] + e == e;
    TrimmedTo([], e);
  }

  /** What follows a name is its value, without the blanks before it and what is stripped behind it, and without a
      quote in front. */
  lemma ValueIs(b: string, v: string, e: string)
    requires AllIn(b, {' ', '\t'}) && IsPlain(v) && AllIn(e, {' ', '\t', '\n', '\r', '"'})
    ensures Unquote(TrimEnd(SkipBlanks(b + v + e))) == v
    ensures Unquote(TrimEnd(SkipBlanks(b + "\"" + v + e))) == v
  {
    hide SkipBlanks, TrimEnd;
    assert b + v + e == b + (v + e);
    if v == [] {
      assert v + e == e;
      BlanksOnlySkip(b, e);
      AllTrimmed(SkipBlanks(b + e));
      assert b + "\"" + v + e == b + ("\"" + e);
      BlanksSkipped(b, "\"" + e);
      AllTrimmed("\"" + e);
    } else {
      BlanksSkipped(b, v + e);
      TrimmedTo(v, e);
      assert b + "\"" + v + e == b + ("\"" + v + e);
      BlanksSkipped(b, "\"" + v + e);
      TrimStripped("\"" + v, e);
      NothingTrimmed("\"" + v);
    }
  }

  lemma WordRead(b: string, n: string, rest: string)
    requires AllIn(b, {' ', '\t'}) && IsWord(n) && '\0' !in rest
    requires rest == [] || rest[0] in {' ', '\t', '\n', '\r'}
    ensures ParseLine(b + n + rest) == Some(Setting(n, Unquote(TrimEnd(SkipBlanks(rest)))))
  {
    hide TrimEnd, Unquote, SkipBlanks, CString, NameLength;
    var line, s := b + n + rest, n + rest;
    assert line == b + s;
    forall i | 0 <= i < |line| ensures line[i] != '\0' {
      if i >= |b| + |n| {
        assert line[i] == rest[i - |b| - |n|];
      }
    }
    NoNul(line);
    BlanksSkipped(b, s);
    WordLength(n, rest, 255);
    NotAComment(n, rest);
    assert s[..|n|] == n && s[|n|..] == rest;
  }

  lemma NotAComment(n: string, rest: string)
    requires IsWord(n) && (rest == [] || rest[0] in {' ', '\t', '\n', '\r'})
    ensures var s := n + rest; s[0] !in {' ', '\t', '\n', '\r'} && !(|s| > 1 && s[0] == '/' && s[1] == '/')
  {
  }

  /** A name, blanks and a value read as that setting, with or without a quote around the value. */
  lemma LineReads(before: string, n: string, between: string, v: string, end: string)
    requires AllIn(before, {' ', '\t'}) && IsWord(n) && AllIn(between, {' ', '\t'}) && between != []
    requires IsPlain(v) && AllIn(end, {' ', '\t', '\n', '\r', '"'})
    ensures ParseLine(before + n + (between + v + end)) == Some(Setting(n, v))
    ensures ParseLine(before + n + (between + "\"" + v + end)) == Some(Setting(n, v))
  {
    hide SkipBlanks, TrimEnd, Unquote, ParseLine;
    ValueIs(between, v, end);
    WordRead(before, n, between + v + end);
    WordRead(before, n, between + "\"" + v + end);
  }

  /** A setting without a value. */
  lemma NameAloneReads(before: string, n: string, end: string)
    requires AllIn(before, {' ', '\t'}) && IsWord(n) && AllIn(end, {'\n', '\r'})
    ensures ParseLine(before + n + end) == Some(Setting(n, ""))
  {
    hide SkipBlanks, TrimEnd, Unquote, ParseLine;
    ValueIs([], [], end);
    assert [] + [] + end == end;
    WordRead(before, n, end);
  }

  /** Empty lines and comments define nothing. */
  lemma NothingRead(before: string, rest: string)
    requires AllIn(before, {' ', '\t'}) && '\0' !in rest
    requires rest == [] || rest[0] in {'\n', '\r'} || (|rest| > 1 && rest[0] == '/' && rest[1] == '/')
    ensures ParseLine(before + rest) == None
  {
    hide CString, SkipBlanks;
    NoNul(before + rest);
    BlanksSkipped(before, rest);
  }

  /** Names longer than 255 characters are cut there, and the rest of them is read as the value. */
  lemma LongNameCut(n: string, more: string, e: string)
    requires IsWord(n) && |n| == 255 && IsPlain(more) && AllIn(e, {' ', '\t', '\n', '\r', '"'})
    ensures ParseLine(n + (more + e)) == Some(Setting(n, more))
  {
    hide TrimEnd, Unquote, SkipBlanks, CString, NameLength;
    var s := n + (more + e);
    forall i | 0 <= i < |s| ensures s[i] != '\0' {
      if i >= |n| {
        assert s[i] == (more + e)[i - |n|];
      }
    }
    NoNul(s);
    assert [] + s == s;
    BlanksSkipped([], s);
    WordLength(n, more + e, 255);
    assert s[0] == n[0] && s[1] == n[1];
    assert s[..255] == n && s[255..] == more + e;
    assert [] + more + e == more + e;
    ValueIs([], more, e);
  }

  /** A line as `fgets` returns it whole. */
  ghost predicate Whole(l: string) {
    0 < |l| <= 4095 && l[|l| - 1] == '\n' && forall i :: 0 <= i < |l| - 1 ==> l[i] != '\n'
  }

  ghost predicate Defines(l: string, key: string) { ParseLine(l).Some? && Lower(ParseLine(l).value.name) == key }

  /** Of several lines that set the same name, in whatever case, the first one counts. */
  lemma FirstStands(lines: seq<string>, key: string)
    requires forall i :: 0 <= i < |lines| ==> Whole(lines[i])
    ensures key in Parse(Concat(lines)) <==> exists i :: 0 <= i < |lines| && Defines(lines[i], key)
    ensures forall i :: 0 <= i < |lines| && Defines(lines[i], key)
                        && (forall j :: 0 <= j < i ==> !Defines(lines[j], key)) ==>
              Parse(Concat(lines))[key] == ParseLine(lines[i]).value
  {
    ChunksOfLines(lines);
    FirstOf(lines, map[], key);
  }

  lemma {:induction false} FirstOf(lines: seq<string>, m: map<string, Setting>, key: string)
    ensures var r := ParseLines(lines, m);
            && (key in r <==> key in m || exists i :: 0 <= i < |lines| && Defines(lines[i], key))
            && (key in m ==> r[key] == m[key])
            && (key !in m ==>
                  forall i :: 0 <= i < |lines| && Defines(lines[i], key)
                              && (forall j :: 0 <= j < i ==> !Defines(lines[j], key)) ==>
                    r[key] == ParseLine(lines[i]).value)
  {
    if lines != [] {
      var rest, m1 := lines[1..], Define(m, lines[0]);
      FirstOf(rest, m1, key);
      hide ParseLine;
      assert forall i :: 0 <= i < |rest| ==> rest[i] == lines[i + 1];
      if Defines(lines[0], key) {
        assert key in m1;
      } else {
        assert key in m1 <==> key in m;
        if i :| 0 <= i < |lines| && Defines(lines[i], key) {
          assert Defines(rest[i - 1], key);
        }
      }
    }
  }

  /** A line longer than the buffer is read in pieces of 4095 characters. */
  lemma LongLineCut(l: string, t: string)
    requires |l| == 4095 && '\n' !in l
    ensures Chunks(l + t) == [l] + Chunks(t)
  {
    FullChunk(l, t, 4095);
    assert (l + t)[..4095] == l && (l + t)[4095..] == t;
  }

  lemma {:induction false} FullChunk(l: string, t: string, room: nat)
    requires |l| == room && '\n' !in l
    ensures Chunk(l + t, room) == room
  {
    if l != [] {
      assert (l + t)[1..] == l[1..] + t && (l + t)[0] == l[0];
      FullChunk(l[1..], t, room - 1);
    }
  }

  /** Two names are the same setting exactly if they differ at most in the case of their letters. */
  lemma {:induction false} SameName(a: string, b: string)
    ensures Lower(a) == Lower(b) <==> |a| == |b| && forall i :: 0 <= i < |a| ==> SameLetter(a[i], b[i])
  {
    LowerAt(a);
    LowerAt(b);
    if |a| == |b| && forall i :: 0 <= i < |a| ==> SameLetter(a[i], b[i]) {
      assert forall i :: 0 <= i < |a| ==> Lower(a)[i] == Lower(b)[i];
    }
    if Lower(a) == Lower(b) {
      forall i | 0 <= i < |a| ensures SameLetter(a[i], b[i]) {
        assert Lower(a)[i] == Lower(b)[i];
      }
    }
  }

  predicate SameLetter(x: char, y: char) {
    || x == y
    || ('A' <= x <= 'Z' && y as int == x as int + 32)
    || ('A' <= y <= 'Z' && x as int == y as int + 32)
  }

  lemma {:induction false} LowerAt(s: string)
    ensures |Lower(s)| == |s|
    ensures forall i :: 0 <= i < |s| ==> Lower(s)[i] == if 'A' <= s[i] <= 'Z' then (s[i] as int + 32) as char else s[i]
  {
    if s != [] {
      LowerAt(s[1..]);
    }
  }

  // What a generated file says besides.

  /** The text of some comments. */
  function Uncommented(lines: seq<string>): string {
    if lines == [] then [] else (if |lines[0]| < 3 then [] else lines[0][3..]) + Uncommented(lines[1..])
  }

  lemma UncommentedStep(x: string, rest: seq<string>)
    ensures Uncommented([Framed("// ", x, "")] + rest) == x + ['\n'] + Uncommented(rest)
    ensures "// " <= Framed("// ", x, "")
  {
    var line := Framed("// ", x, "");
    assert line == "// " + (x + ['\n']);
    assert line[3..] == x + ['\n'] && ([line] + rest)[1..] == rest;
  }

  lemma {:induction false} LineOfHelp(s: string)
    requires s != []
    ensures var n := HelpLine(s);
            HelpLines(s) == [Framed("// ", s[..n], "")] + (if n < |s| then HelpLines(s[n + 1..]) else [])
  {
    hide Framed, HelpLine;
  }

  lemma {:induction false} LastOfLine(s: string)
    ensures s != [] && HelpLine(s) == |s| ==> s[|s| - 1] != '\n'
  {
    if |s| > 1 && s[0] != '\n' {
      LastOfLine(s[1..]);
    }
  }

  function MissingBreak(s: string): string { if s == [] || s[|s| - 1] == '\n' then [] else ['\n'] }

  lemma Glued(s: string, n: nat)
    requires n < |s| && s[n] == '\n'
    ensures var rest := s[n + 1..]; s[..n] + ['\n'] + (rest + MissingBreak(rest)) == s + MissingBreak(s)
  {
    var rest := s[n + 1..];
    assert s == s[..n] + ['\n'] + rest;
    assert rest != [] ==> rest[|rest| - 1] == s[|s| - 1];
  }

  /** The help text is there, line by line. */
  lemma {:induction false} HelpIsThere(s: string)
    ensures Uncommented(HelpLines(s)) == s + MissingBreak(s)
    decreases |s|
  {
    hide HelpLines, Uncommented, Framed, HelpLine, MissingBreak;
    NoComment();
    if s == [] {
      NoHelpNoBreak();
    } else {
      LineOfHelp(s);
      var n := HelpLine(s);
      if n < |s| {
        HelpIsThere(s[n + 1..]);
        UncommentedStep(s[..n], HelpLines(s[n + 1..]));
        Glued(s, n);
      } else {
        LastOfLine(s);
        UncommentedStep(s[..n], []);
        BreakMissing(s);
        assert s[..n] == s && s + ['\n'] + [] == s + ['\n'];
      }
    }
  }

  lemma NoHelpNoBreak()
    ensures HelpLines([]) == [] && MissingBreak([]) == []
  {
  }

  lemma BreakMissing(s: string)
    requires s != [] && s[|s| - 1] != '\n'
    ensures MissingBreak(s) == ['\n']
  {
  }

  /** Each behind a comment sign. */
  lemma {:induction false} HelpIsCommented(s: string)
    ensures forall i :: 0 <= i < |HelpLines(s)| ==> "// " <= HelpLines(s)[i]
    decreases |s|
  {
    if s != [] {
      hide HelpLines, Framed;
      LineOfHelp(s);
      var n := HelpLine(s);
      UncommentedStep(s[..n], []);
      if n < |s| {
        HelpIsCommented(s[n + 1..]);
      }
    }
  }

  lemma NoComment()
    ensures Uncommented([]) == []
  {
  }

  /** What is written for a recorded variable: its help text, cut to 254 characters, its default, its bounds if it has
      any, and then the setting. For any other nothing is. */
  lemma WhatIsWritten(v: ConVar, existing: map<string, Setting>)
    ensures !v.record ==> ConVarLines(v, existing) == []
    ensures v.record ==>
              var help := if |v.help| <= 254 then v.help else v.help[..254];
              ConVarLines(v, existing) ==
                HelpLines(help) + ["// -\n", "// Default: \"" + v.default_ + "\"\n"]
                + (if v.min.Some? then ["// Minimum: \"" + v.min.value + "\"\n"] else [])
                + (if v.max.Some? then ["// Maximum: \"" + v.max.value + "\"\n"] else [])
                + [v.name + " \"" + (if Lower(v.name) in existing then existing[Lower(v.name)].value else v.default_)
                   + "\"\n", "\n"]
  {
    hide HelpLines, Lower, Framed;
    FramedIs("// Default: \"", v.default_);
    if v.min.Some? {
      FramedIs("// Minimum: \"", v.min.value);
    }
    if v.max.Some? {
      FramedIs("// Maximum: \"", v.max.value);
    }
  }

  lemma FramedIs(pre: string, x: string)
    ensures Framed(pre, x, "\"") == pre + x + "\"\n"
  {
    assert "\"" + "\n" == "\"\n";
  }

  /** The variables come in their order, one after another. */
  lemma {:induction false} InOrder(a: seq<ConVar>, b: seq<ConVar>, existing: map<string, Setting>)
    ensures BodyLines(a + b, existing) == BodyLines(a, existing) + BodyLines(b, existing)
    ensures |a| == 1 ==> BodyLines(a, existing) == ConVarLines(a[0], existing)
  {
    hide ConVarLines;
    if a == [] {
      assert a + b == b;
    } else {
      assert (a + b)[1..] == a[1..] + b;
      InOrder(a[1..], b, existing);
    }
  }
}
