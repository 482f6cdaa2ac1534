/**
 The text of an auto-generated plugin config (core/CoreConfig.cpp): how a line is read, how a file is
 written, and that reading takes back what was written.
 */
module ConfigText {
  import opened Names
  import opened Wrappers

  const LINE_SIZE: nat := 4096
  const NAME_SIZE: nat := 256
  const HELP_SIZE: nat := 255

  predicate IsBlank(c: char) { c == ' ' || c == '\t' }

  predicate IsBreak(c: char) { c == '\n' || c == '\r' }

  /** What is stripped from the end of a value. */
  predicate IsStripped(c: char) { IsBlank(c) || IsBreak(c) || c == '"' }

  /** How much of `text` one `fgets` into a buffer of LINE_SIZE takes. */
  function Chunk(text: string, room: nat): (n: nat)
    ensures n <= |text| && n <= room
    ensures text != [] && room > 0 ==> n > 0
  {
    if text == [] || room == 0 then 0 else if text[0] == '\n' then 1 else 1 + Chunk(text[1..], room - 1)
  }

  function Chunks(text: string): seq<string>
    decreases |text|
  {
    if text == [] then []
    else var n := Chunk(text, LINE_SIZE - 1); [text[..n]] + Chunks(text[n..])
  }

  /** A buffer as a C string: what comes before the first NUL. */
  function CString(s: string): string { if s == [] || s[0] == '\0' then [] else [s[0]] + CString(s[1..]) }

  function SkipBlanks(s: string): (r: string)
    ensures |r| <= |s|
    ensures r == [] || !IsBlank(r[0])
  {
    if s != [] && IsBlank(s[0]) then SkipBlanks(s[1..]) else s
  }

  function NameLength(s: string, room: nat): (n: nat)
    ensures n <= |s| && n <= room
  {
    if s == [] || room == 0 || IsBlank(s[0]) || IsBreak(s[0]) then 0 else 1 + NameLength(s[1..], room - 1)
  }

  function TrimEnd(s: string): (r: string)
    ensures r <= s
    ensures r == [] || !IsStripped(r[|r| - 1])
  {
    if s != [] && IsStripped(s[|s| - 1]) then TrimEnd(s[..|s| - 1]) else s
  }

  function Unquote(s: string): string { if s != [] && s[0] == '"' then s[1..] else s }

  datatype Setting = Setting(name: string, value: string)

  /** What a line defines, if it is not empty and not a comment. */
  function ParseLine(line: string): Option<Setting> {
    var s := SkipBlanks(CString(line));
    if s == [] || IsBreak(s[0]) then None
    else if |s| > 1 && s[0] == '/' && s[1] == '/' then None
    else
      var n := NameLength(s, NAME_SIZE - 1);
      Some(Setting(s[..n], Unquote(TrimEnd(SkipBlanks(s[n..])))))
  }

  /** The first definition of a name counts, whatever its case. */
  function Define(m: map<string, Setting>, line: string): map<string, Setting> {
    match ParseLine(line)
    case None => m
    case Some(d) => if Lower(d.name) in m then m else m[Lower(d.name) := d]
  }

  function ParseLines(lines: seq<string>, m: map<string, Setting>): map<string, Setting> {
    if lines == [] then m else ParseLines(lines[1..], Define(m, lines[0]))
  }

  /** SM_ParseConfig */
  function Parse(text: string): map<string, Setting> { ParseLines(Chunks(text), map[]) }

  /** A console variable as the generator sees it. */
  datatype ConVar = ConVar(name: string, record: bool, help: string, default_: string, min: Option<string>,
                           max: Option<string>)

  function HelpLine(s: string): (n: nat)
    ensures n <= |s| && (n < |s| ==> s[n] == '\n')
  {
    if s == [] || s[0] == '\n' then 0 else 1 + HelpLine(s[1..])
  }

  function HelpLines(s: string): seq<string>
    decreases |s|
  {
    if s == [] then []
    else
      var n := HelpLine(s);
      [Framed("// ", s[..n], "")] + if n < |s| then HelpLines(s[n + 1..]) else []
  }

  function Clip(s: string, size: nat): string
    requires size > 0
  {
    if |s| < size then s else s[..size - 1]
  }

  /** A comment with a text in it. */
  function Framed(pre: string, x: string, post: string): string { pre + x + post + "\n" }

  function BoundLine(pre: string, bound: Option<string>): seq<string> {
    match bound case None => [] case Some(x) => [Framed(pre, x, "\"")]
  }

  function SettingLine(name: string, value: string): string { name + " \"" + value + "\"\n" }

  /** The value already in the file, else the default. */
  function ValueOf(v: ConVar, existing: map<string, Setting>): string {
    if Lower(v.name) in existing then existing[Lower(v.name)].value else v.default_
  }

  const DASH: string := "// -\n"

  function CommentLines(v: ConVar): seq<string> {
    HelpLines(Clip(v.help, HELP_SIZE)) + [DASH, Framed("// Default: \"", v.default_, "\"")]
    + BoundLine("// Minimum: \"", v.min) + BoundLine("// Maximum: \"", v.max)
  }

  function ConVarLines(v: ConVar, existing: map<string, Setting>): seq<string> {
    if !v.record then [] else CommentLines(v) + [SettingLine(v.name, ValueOf(v, existing)), "\n"]
  }

  function BodyLines(vars: seq<ConVar>, existing: map<string, Setting>): seq<string> {
    if vars == [] then [] else ConVarLines(vars[0], existing) + BodyLines(vars[1..], existing)
  }

  /** In pieces, because nothing can be proved directly of a literal this long, not even what it begins with. */
  const AUTO: string := "// This file was " + "auto-generated by " + "SourceMod (v"
  const OWNER: string := "// ConVars for plugin \""

  function TopLines(version: string, plugin: string): seq<string> {
    [Framed(AUTO, version, ")"), Framed(OWNER, plugin, "\""), "\n", "\n"]
  }

  function FileLines(version: string, plugin: string, vars: seq<ConVar>, existing: map<string, Setting>): seq<string> {
    TopLines(version, plugin) + BodyLines(vars, existing) + ["\n"]
  }

  function Concat(lines: seq<string>): string { if lines == [] then [] else lines[0] + Concat(lines[1..]) }

  // What is read back.

  /** One line, short enough for the buffer. */
  ghost predicate IsLine(l: string) {
    0 < |l| < LINE_SIZE && l[|l| - 1] == '\n' && forall i :: 0 <= i < |l| - 1 ==> l[i] != '\n'
  }

  lemma {:induction false} ChunkOfLine(l: string, t: string, room: nat)
    requires 0 < |l| <= room && l[|l| - 1] == '\n' && forall i :: 0 <= i < |l| - 1 ==> l[i] != '\n'
    ensures Chunk(l + t, room) == |l|
  {
    if |l| > 1 {
      assert (l + t)[1..] == l[1..] + t;
      ChunkOfLine(l[1..], t, room - 1);
    }
  }

  /** A file written line by line is read line by line. */
  lemma {:induction false} ChunksOfLines(lines: seq<string>)
    requires forall i :: 0 <= i < |lines| ==> IsLine(lines[i])
    ensures Chunks(Concat(lines)) == lines
  {
    if lines != [] {
      var l, t := lines[0], Concat(lines[1..]);
      ChunkOfLine(l, t, LINE_SIZE - 1);
      assert (l + t)[..|l|] == l && (l + t)[|l|..] == t;
      ChunksOfLines(lines[1..]);
    }
  }

  lemma {:induction false} NoNul(s: string)
    requires '\0' !in s
    ensures CString(s) == s
  {
    if s != [] {
      NoNul(s[1..]);
    }
  }

  /** What a name must look like to be read back: a non-empty word that fits, and no comment. */
  ghost predicate IsName(n: string) {
    && 0 < |n| < NAME_SIZE && '\0' !in n
    && (forall i :: 0 <= i < |n| ==> !IsBlank(n[i]) && !IsBreak(n[i]))
    && !(|n| > 1 && n[0] == '/' && n[1] == '/')
  }

  lemma {:induction false} NameLengthIs(n: string, rest: string, room: nat)
    requires |n| <= room && forall i :: 0 <= i < |n| ==> !IsBlank(n[i]) && !IsBreak(n[i])
    requires rest != [] && IsBlank(rest[0])
    ensures NameLength(n + rest, room) == |n|
  {
    if n == [] {
      assert n + rest == rest;
    } else {
      assert (n + rest)[1..] == n[1..] + rest;
      NameLengthIs(n[1..], rest, room - 1);
    }
  }

  lemma {:induction false} TrimStripped(s: string, t: string)
    requires forall i :: 0 <= i < |t| ==> IsStripped(t[i])
    ensures TrimEnd(s + t) == TrimEnd(s)
  {
    if t == [] {
      assert s + t == s;
    } else {
      assert (s + t)[..|s + t| - 1] == s + t[..|t| - 1];
      TrimStripped(s, t[..|t| - 1]);
    }
  }

  /** In front of what is left of a value, an opening quote survives; in front of nothing it does not. */
  lemma {:induction false} TrimQuoted(v: string)
    ensures TrimEnd(['"'] + v) == if TrimEnd(v) == [] then [] else ['"'] + TrimEnd(v)
  {
    if v == [] {
      assert ['"'] + v == ['"'];
      assert ['"'][..0] == [];
    } else if IsStripped(v[|v| - 1]) {
      assert (['"'] + v)[..|v|] == ['"'] + v[..|v| - 1];
      TrimQuoted(v[..|v| - 1]);
    }
  }

  lemma ValueReadBack(v: string)
    ensures Unquote(TrimEnd(SkipBlanks(" \"" + v + "\"\n"))) == TrimEnd(v)
  {
    var rest, quoted := " \"" + v + "\"\n", ['"'] + v + "\"\n";
    assert rest[1..] == quoted;
    assert SkipBlanks(quoted) == quoted;
    assert quoted == (['"'] + v) + "\"\n";
    TrimStripped(['"'] + v, "\"\n");
    TrimQuoted(v);
  }

  lemma NameReadBack(n: string, rest: string)
    requires IsName(n) && |rest| > 1 && rest[0] == ' ' && rest[1] == '"'
    ensures SkipBlanks(n + rest) == n + rest && !IsBreak((n + rest)[0])
    ensures !((n + rest)[0] == '/' && (n + rest)[1] == '/')
    ensures NameLength(n + rest, NAME_SIZE - 1) == |n| && (n + rest)[..|n|] == n && (n + rest)[|n|..] == rest
  {
    NameLengthIs(n, rest, NAME_SIZE - 1);
  }

  /** Reading a printed setting gives the name, and the value without what is stripped at its end. */
  lemma PrintThenParse(n: string, v: string)
    requires IsName(n) && '\0' !in v
    ensures ParseLine(SettingLine(n, v)) == Some(Setting(n, TrimEnd(v)))
  {
    hide SkipBlanks, NameLength, TrimEnd, IsName;
    var rest := " \"" + v + "\"\n";
    assert SettingLine(n, v) == n + rest;
    assert '\0' !in n && n != [] by { NameHasNoNul(n); }
    NoNul(n + rest);
    NameReadBack(n, rest);
    ValueReadBack(v);
  }

  lemma NameHasNoNul(n: string)
    requires IsName(n)
    ensures '\0' !in n && n != []
  {
  }

  /** The round trip: a printed value comes back exactly when it does not end in something that is stripped. */
  lemma RoundTripIff(n: string, v: string)
    requires IsName(n) && '\0' !in v
    ensures ParseLine(SettingLine(n, v)) == Some(Setting(n, v)) <==> v == [] || !IsStripped(v[|v| - 1])
  {
    PrintThenParse(n, v);
  }

  /** A value with a blank at its end comes back without. */
  lemma RoundTripExample()
    ensures ParseLine(SettingLine("sv_tag", "a ")) == Some(Setting("sv_tag", "a"))
  {
    assert "a "[..1] == "a";
    PrintThenParse("sv_tag", "a ");
  }

  // What the parser can produce.

  lemma {:induction false} TrimTrimmed(s: string)
    requires s == [] || !IsStripped(s[|s| - 1])
    ensures TrimEnd(s) == s
  {
  }

  lemma {:induction false} CStringIs(s: string)
    ensures CString(s) <= s && '\0' !in CString(s)
  {
    if s != [] && s[0] != '\0' {
      CStringIs(s[1..]);
    }
  }

  lemma {:induction false} SkipBlanksIs(s: string)
    ensures SkipBlanks(s) == s[|s| - |SkipBlanks(s)|..]
  {
    if s != [] && IsBlank(s[0]) {
      SkipBlanksIs(s[1..]);
    }
  }

  ghost predicate At(v: string, c: string, k: nat) { k + |v| <= |c| && forall i :: 0 <= i < |v| ==> v[i] == c[k + i] }

  /** `v` is a stretch of `c`. */
  ghost predicate Slice(v: string, c: string) { exists k: nat :: At(v, c, k) }

  lemma SliceOf(a: string, b: string, c: string)
    requires Slice(a, b) && Slice(b, c)
    ensures Slice(a, c)
  {
    var i: nat :| At(a, b, i);
    var j: nat :| At(b, c, j);
    forall m | 0 <= m < |a| ensures a[m] == c[j + i + m] {
      assert a[m] == b[i + m];
    }
    assert At(a, c, j + i);
  }

  lemma Suffix(s: string, n: nat)
    requires n <= |s|
    ensures Slice(s[n..], s)
  {
    assert At(s[n..], s, n);
  }

  lemma Prefix(a: string, s: string)
    requires a <= s
    ensures Slice(a, s)
  {
    assert At(a, s, 0);
  }

  /** The value is a stretch of the line, before any NUL. */
  lemma ValueIsSlice(line: string, d: Setting)
    requires ParseLine(line) == Some(d)
    ensures Slice(d.value, CString(line)) && TrimEnd(d.value) == d.value
  {
    hide ParseLine, NameLength, Slice, CString, SkipBlanks, TrimEnd, Unquote;
    var c := CString(line);
    var s := SkipBlanks(c);
    var r := s[NameLength(s, NAME_SIZE - 1)..];
    ValueIsParsed(line, d);
    SkipBlanksIs(c);
    Suffix(c, |c| - |s|);
    Suffix(s, |s| - |r|);
    SliceOf(r, s, c);
    ValuePart(r);
    SliceOf(d.value, r, c);
  }

  lemma ValueIsParsed(line: string, d: Setting)
    requires ParseLine(line) == Some(d)
    ensures var s := SkipBlanks(CString(line));
            d.value == Unquote(TrimEnd(SkipBlanks(s[NameLength(s, NAME_SIZE - 1)..])))
  {
    hide CString, SkipBlanks, NameLength, TrimEnd, Unquote;
  }

  lemma ValuePart(r: string)
    ensures var v := Unquote(TrimEnd(SkipBlanks(r))); Slice(v, r) && TrimEnd(v) == v
  {
    hide Slice;
    var q := SkipBlanks(r);
    var t := TrimEnd(q);
    SkipBlanksIs(r);
    Suffix(r, |r| - |q|);
    Prefix(t, q);
    SliceOf(t, q, r);
    Suffix(t, if Unquote(t) == t then 0 else 1);
    assert t[0..] == t;
    SliceOf(Unquote(t), t, r);
    TrimTrimmed(Unquote(t));
  }

  /** Every value the parser produces is one that comes back when it is printed. */
  lemma ParsedValueReadsBack(line: string, d: Setting)
    requires ParseLine(line) == Some(d)
    ensures TrimEnd(d.value) == d.value && '\0' !in d.value
    ensures (forall i :: 0 <= i < |line| - 1 ==> line[i] != '\n') ==> '\n' !in d.value
  {
    hide ParseLine;
    ValueIsSlice(line, d);
    CStringIs(line);
    var c, v := CString(line), d.value;
    var k: nat :| At(v, c, k);
    forall i | 0 <= i < |v| ensures v[i] != '\0' {
      assert v[i] == c[k + i] && c[k + i] in c;
    }
    if forall i :: 0 <= i < |line| - 1 ==> line[i] != '\n' {
      forall i | 0 <= i < |v| ensures v[i] != '\n' {
        assert v[i] == line[k + i];
        assert i < |v| - 1 || !IsStripped(v[i]);
      }
    }
  }

  // Regeneration.

  /** A line that defines nothing. */
  ghost predicate Silent(l: string) { ParseLine(l).None? }

  lemma CommentIsSilent(l: string)
    requires |l| > 1 && l[0] == '/' && l[1] == '/'
    ensures Silent(l)
  {
    assert CString(l) == ['/'] + CString(l[1..]);
    assert l[1..][0] == '/';
  }

  lemma EmptyIsSilent()
    ensures Silent("\n")
  {
    NoNul("\n");
  }

  lemma {:induction false} ParseAppend(a: seq<string>, b: seq<string>, m: map<string, Setting>)
    ensures ParseLines(a + b, m) == ParseLines(b, ParseLines(a, m))
  {
    if a == [] {
      assert a + b == b;
    } else {
      assert (a + b)[1..] == a[1..] + b && (a + b)[0] == a[0];
      ParseAppend(a[1..], b, Define(m, a[0]));
    }
  }

  lemma {:induction false} ParseSilent(a: seq<string>, m: map<string, Setting>)
    requires forall i :: 0 <= i < |a| ==> Silent(a[i])
    ensures ParseLines(a, m) == m
  {
    if a != [] {
      ParseSilent(a[1..], m);
    }
  }

  /** All lines are comments. */
  ghost predicate Comments(a: seq<string>) {
    forall i :: 0 <= i < |a| ==> IsLine(a[i]) && |a[i]| > 1 && a[i][0] == '/' && a[i][1] == '/'
  }

  lemma FramedIsComment(pre: string, x: string, post: string)
    requires |pre| > 1 && pre[0] == '/' && pre[1] == '/'
    requires '\n' !in pre && '\n' !in x && '\n' !in post && |pre| + |x| + |post| + 1 < LINE_SIZE
    ensures Comments([Framed(pre, x, post)])
  {
    var l := Framed(pre, x, post);
    forall i | 0 <= i < |l| - 1 ensures l[i] != '\n' {
      assert l[i] == if i < |pre| then pre[i] else if i < |pre| + |x| then x[i - |pre|] else post[i - |pre| - |x|];
    }
  }

  lemma CommentsJoin(a: seq<string>, b: seq<string>)
    requires Comments(a) && Comments(b)
    ensures Comments(a + b)
  {
  }

  lemma NoComments()
    ensures Comments([])
  {
  }

  lemma {:induction false} HelpIsComments(s: string)
    requires |s| < HELP_SIZE
    ensures Comments(HelpLines(s))
    decreases |s|
  {
    hide Comments;
    NoComments();
    if s != [] {
      var n := HelpLine(s);
      var rest := if n < |s| then HelpLines(s[n + 1..]) else [];
      HelpLineIs(s);
      FramedIsComment("// ", s[..n], "");
      if n < |s| {
        HelpIsComments(s[n + 1..]);
      }
      CommentsJoin([Framed("// ", s[..n], "")], rest);
    }
  }

  lemma {:induction false} HelpLineIs(s: string)
    ensures forall i :: 0 <= i < HelpLine(s) ==> s[i] != '\n'
  {
    if s != [] && s[0] != '\n' {
      HelpLineIs(s[1..]);
    }
  }

  /** A console variable that can be written so that it is read back. */
  ghost predicate Printable(v: ConVar, existing: map<string, Setting>) {
    v.record ==>
      && IsName(v.name)
      && '\n' !in v.default_ && '\0' !in v.default_ && |v.default_| < LINE_SIZE - 16
      && (v.min.Some? ==> '\n' !in v.min.value && |v.min.value| < LINE_SIZE - 16)
      && (v.max.Some? ==> '\n' !in v.max.value && |v.max.value| < LINE_SIZE - 16)
      && var x := ValueOf(v, existing); '\n' !in x && '\0' !in x && |v.name| + |x| + 4 < LINE_SIZE
  }

  lemma ConVarComments(v: ConVar, existing: map<string, Setting>)
    requires v.record && Printable(v, existing)
    ensures Comments(CommentLines(v))
    ensures ConVarLines(v, existing) == CommentLines(v) + [SettingLine(v.name, ValueOf(v, existing)), "\n"]
  {
    hide Comments, HelpLines, Framed;
    var help, dash, dflt := HelpLines(Clip(v.help, HELP_SIZE)), [DASH], [Framed("// Default: \"", v.default_, "\"")];
    var min, max := BoundLine("// Minimum: \"", v.min), BoundLine("// Maximum: \"", v.max);
    HelpIsComments(Clip(v.help, HELP_SIZE));
    DashIsComment();
    FramedIsComment("// Default: \"", v.default_, "\"");
    BoundIsComment("// Minimum: \"", v.min);
    BoundIsComment("// Maximum: \"", v.max);
    CommentsJoin(help, dash);
    CommentsJoin(help + dash, dflt);
    CommentsJoin(help + dash + dflt, min);
    CommentsJoin(help + dash + dflt + min, max);
    assert CommentLines(v) == help + dash + dflt + min + max;
  }

  lemma DashIsComment()
    ensures Comments([DASH])
  {
  }

  lemma BoundIsComment(pre: string, bound: Option<string>)
    requires |pre| > 1 && pre[0] == '/' && pre[1] == '/' && '\n' !in pre
    requires bound.Some? ==> '\n' !in bound.value && |pre| + |bound.value| + 2 < LINE_SIZE
    ensures Comments(BoundLine(pre, bound))
  {
    if bound.Some? {
      FramedIsComment(pre, bound.value, "\"");
    } else {
      NoComments();
    }
  }

  lemma ConVarReadsBack(v: ConVar, existing: map<string, Setting>, m: map<string, Setting>)
    requires Printable(v, existing)
    ensures ParseLines(ConVarLines(v, existing), m) ==
              if !v.record || Lower(v.name) in m then m
              else m[Lower(v.name) := Setting(v.name, TrimEnd(ValueOf(v, existing)))]
    ensures forall i :: 0 <= i < |ConVarLines(v, existing)| ==> IsLine(ConVarLines(v, existing)[i])
  {
    if v.record {
      hide ConVarLines, CommentLines, ParseLine;
      ConVarComments(v, existing);
      var c, x := CommentLines(v), ValueOf(v, existing);
      var setting := SettingLine(v.name, x);
      forall i | 0 <= i < |c| ensures Silent(c[i]) {
        CommentIsSilent(c[i]);
      }
      ParseAppend(c, [setting, "\n"], m);
      ParseSilent(c, m);
      PrintThenParse(v.name, x);
      EmptyIsSilent();
      assert [setting, "\n"][1..] == ["\n"] && ["\n"][1..] == [];
      assert ParseLines(["\n"], Define(m, setting)) == Define(m, setting);
      SettingIsLine(v, existing);
    }
  }

  lemma SettingIsLine(v: ConVar, existing: map<string, Setting>)
    requires v.record && Printable(v, existing)
    ensures IsLine(SettingLine(v.name, ValueOf(v, existing))) && IsLine("\n")
  {
  }

  /** The names a file of these variables defines. */
  ghost predicate Recorded(vars: seq<ConVar>, key: string) {
    exists i :: 0 <= i < |vars| && vars[i].record && Lower(vars[i].name) == key
  }

  /** Recorded names differ, whatever their case. */
  ghost predicate Distinct(vars: seq<ConVar>) {
    forall i, j :: 0 <= i < j < |vars| && vars[i].record && vars[j].record ==>
      Lower(vars[i].name) != Lower(vars[j].name)
  }

  ghost predicate AllPrintable(vars: seq<ConVar>, existing: map<string, Setting>) {
    forall i :: 0 <= i < |vars| ==> Printable(vars[i], existing)
  }

  /** What was in the map before stays, and each recorded variable is there with the value printed for it. */
  ghost predicate ReadsBack(vars: seq<ConVar>, existing: map<string, Setting>, m: map<string, Setting>,
                            r: map<string, Setting>)
  {
    && (forall k :: k in r <==> k in m || Recorded(vars, k))
    && (forall k :: k in m ==> k in r && r[k] == m[k])
    && (forall i :: 0 <= i < |vars| && vars[i].record && Lower(vars[i].name) !in m ==>
          Lower(vars[i].name) in r
          && r[Lower(vars[i].name)] == Setting(vars[i].name, TrimEnd(ValueOf(vars[i], existing))))
  }

  ghost predicate AllLines(lines: seq<string>) { forall i :: 0 <= i < |lines| ==> IsLine(lines[i]) }

  lemma {:induction false} BodyReadsBack(vars: seq<ConVar>, existing: map<string, Setting>, m: map<string, Setting>)
    requires AllPrintable(vars, existing) && Distinct(vars)
    ensures ReadsBack(vars, existing, m, ParseLines(BodyLines(vars, existing), m))
    ensures AllLines(BodyLines(vars, existing))
  {
    hide ConVarLines, Printable, IsLine;
    if vars != [] {
      var v, rest := vars[0], vars[1..];
      var first := ConVarLines(v, existing);
      var m1 := ParseLines(first, m);
      assert Printable(vars[0], existing);
      ConVarReadsBack(v, existing, m);
      ParseAppend(first, BodyLines(rest, existing), m);
      assert forall i :: 0 <= i < |rest| ==> rest[i] == vars[i + 1];
      BodyReadsBack(rest, existing, m1);
      var r := ParseLines(BodyLines(rest, existing), m1);
      forall k ensures Recorded(vars, k) <==> (v.record && Lower(v.name) == k) || Recorded(rest, k) {
        RecordedHead(vars, k);
      }
      ReadsBackHead(vars, existing, m, m1, r);
    }
  }

  lemma RecordedHead(vars: seq<ConVar>, k: string)
    requires vars != []
    ensures Recorded(vars, k) <==> (vars[0].record && Lower(vars[0].name) == k) || Recorded(vars[1..], k)
  {
    if Recorded(vars[1..], k) {
      var i :| 0 <= i < |vars[1..]| && vars[1..][i].record && Lower(vars[1..][i].name) == k;
      assert vars[i + 1] == vars[1..][i];
    }
    if Recorded(vars, k) {
      var i :| 0 <= i < |vars| && vars[i].record && Lower(vars[i].name) == k;
      if i > 0 {
        assert vars[1..][i - 1] == vars[i];
      }
    }
  }

  lemma ReadsBackHead(vars: seq<ConVar>, existing: map<string, Setting>, m: map<string, Setting>,
                      m1: map<string, Setting>, r: map<string, Setting>)
    requires vars != [] && Distinct(vars) && ReadsBack(vars[1..], existing, m1, r)
    requires m1 == if !vars[0].record || Lower(vars[0].name) in m then m
                   else m[Lower(vars[0].name) := Setting(vars[0].name, TrimEnd(ValueOf(vars[0], existing)))]
    requires forall k :: Recorded(vars, k) <==> (vars[0].record && Lower(vars[0].name) == k) || Recorded(vars[1..], k)
    ensures ReadsBack(vars, existing, m, r)
  {
    hide Recorded;
    forall i | 0 <= i < |vars| && vars[i].record && Lower(vars[i].name) !in m
      ensures Lower(vars[i].name) in r
      ensures r[Lower(vars[i].name)] == Setting(vars[i].name, TrimEnd(ValueOf(vars[i], existing)))
    {
      if i > 0 {
        assert vars[1..][i - 1] == vars[i];
      }
    }
  }

  ghost predicate PlainHeader(version: string, plugin: string) {
    '\n' !in version && |version| < LINE_SIZE - 64 && '\n' !in plugin && |plugin| < LINE_SIZE - 64
  }

  /** Reading a generated file gives exactly the recorded variables, each with the value it was printed with,
      short of what is stripped at its end. */
  lemma GenerateThenParse(version: string, plugin: string, vars: seq<ConVar>, existing: map<string, Setting>)
    requires PlainHeader(version, plugin) && AllPrintable(vars, existing) && Distinct(vars)
    ensures ReadsBack(vars, existing, map[], Parse(Concat(FileLines(version, plugin, vars, existing))))
  {
    hide IsLine, Silent, Comments, ReadsBack, BodyLines, TopLines;
    var top := TopLines(version, plugin);
    var body := BodyLines(vars, existing);
    HeaderIsSilent(version, plugin);
    BodyReadsBack(vars, existing, map[]);
    EmptyIsSilent();
    EmptyIsLine();
    var lines := FileLines(version, plugin, vars, existing);
    assert lines == top + (body + ["\n"]);
    assert AllLines(lines);
    ChunksOfLines(lines);
    ParseAppend(top, body + ["\n"], map[]);
    ParseSilent(top, map[]);
    ParseAppend(body, ["\n"], map[]);
    ParseSilent(["\n"], ParseLines(body, map[]));
  }

  lemma EmptyIsLine()
    ensures IsLine("\n")
  {
  }

  lemma HeaderText()
    ensures 1 < |AUTO| < 50 && AUTO[0] == '/' && AUTO[1] == '/' && '\n' !in AUTO
    ensures 1 < |OWNER| < 50 && OWNER[0] == '/' && OWNER[1] == '/' && '\n' !in OWNER
  {
    assert '\n' !in "// This file was " && '\n' !in "auto-generated by " && '\n' !in "SourceMod (v";
  }

  lemma HeaderIsSilent(version: string, plugin: string)
    requires PlainHeader(version, plugin)
    ensures AllLines(TopLines(version, plugin))
    ensures forall i :: 0 <= i < |TopLines(version, plugin)| ==> Silent(TopLines(version, plugin)[i])
  {
    hide Framed, Silent;
    HeaderText();
    FramedIsComment(AUTO, version, ")");
    FramedIsComment(OWNER, plugin, "\"");
    var top := TopLines(version, plugin);
    assert [top[0]][0] == top[0] && [top[1]][0] == top[1];
    CommentIsSilent(top[0]);
    CommentIsSilent(top[1]);
    EmptyIsSilent();
  }

  /** The file and the plugin do not name the same variables. */
  ghost predicate NeedsRegeneration(vars: seq<ConVar>, m: map<string, Setting>) {
    || (exists i :: 0 <= i < |vars| && vars[i].record && Lower(vars[i].name) !in m)
    || (exists k :: k in m && !Recorded(vars, k))
  }

  /** A file just generated needs no regeneration. */
  lemma GeneratedIsCurrent(version: string, plugin: string, vars: seq<ConVar>, existing: map<string, Setting>)
    requires PlainHeader(version, plugin) && AllPrintable(vars, existing) && Distinct(vars)
    ensures !NeedsRegeneration(vars, Parse(Concat(FileLines(version, plugin, vars, existing))))
  {
    GenerateThenParse(version, plugin, vars, existing);
    hide Parse, Concat, FileLines;
    forall i | 0 <= i < |vars| && vars[i].record ensures Recorded(vars, Lower(vars[i].name)) {
    }
  }

  lemma {:induction false} ChunkIsLine(text: string, room: nat)
    ensures forall i :: 0 <= i < Chunk(text, room) - 1 ==> text[i] != '\n'
  {
    if text != [] && room > 0 && text[0] != '\n' {
      ChunkIsLine(text[1..], room - 1);
    }
  }

  lemma {:induction false} ChunksAreLines(text: string)
    ensures forall j, i :: 0 <= j < |Chunks(text)| && 0 <= i < |Chunks(text)[j]| - 1 ==> Chunks(text)[j][i] != '\n'
    decreases |text|
  {
    if text != [] {
      var n := Chunk(text, LINE_SIZE - 1);
      ChunkIsLine(text, LINE_SIZE - 1);
      ChunksAreLines(text[n..]);
    }
  }

  /** Every value in `m` comes back when it is printed. */
  ghost predicate AllReadBack(m: map<string, Setting>) {
    forall k :: k in m ==> TrimEnd(m[k].value) == m[k].value && '\0' !in m[k].value && '\n' !in m[k].value
  }

  lemma {:induction false} ParsedReadBack(lines: seq<string>, m: map<string, Setting>)
    requires AllReadBack(m)
    requires forall j, i :: 0 <= j < |lines| && 0 <= i < |lines[j]| - 1 ==> lines[j][i] != '\n'
    ensures AllReadBack(ParseLines(lines, m))
  {
    if lines != [] {
      hide ParseLine;
      var l := lines[0];
      assert forall i :: 0 <= i < |l| - 1 ==> l[i] != '\n';
      if ParseLine(l).Some? {
        ParsedValueReadsBack(l, ParseLine(l).value);
      }
      ParsedReadBack(lines[1..], Define(m, l));
    }
  }

  lemma ParseReadBack(text: string)
    ensures AllReadBack(Parse(text))
  {
    ChunksAreLines(text);
    ParsedReadBack(Chunks(text), map[]);
  }

  /** Regenerating a file keeps the value it had for every variable that is still recorded. */
  lemma RegenerationKeepsValues(version: string, plugin: string, vars: seq<ConVar>, text: string, i: nat)
    requires PlainHeader(version, plugin) && AllPrintable(vars, Parse(text)) && Distinct(vars)
    requires i < |vars| && vars[i].record && Lower(vars[i].name) in Parse(text)
    ensures var k, m := Lower(vars[i].name), Parse(Concat(FileLines(version, plugin, vars, Parse(text))));
            k in m && m[k].value == Parse(text)[k].value
  {
    ParseReadBack(text);
    GenerateThenParse(version, plugin, vars, Parse(text));
  }

  lemma {:induction false} TrimEndIs(s: string)
    ensures TrimEnd(s) <= s && TrimEnd(TrimEnd(s)) == TrimEnd(s)
  {
    if s != [] && IsStripped(s[|s| - 1]) {
      TrimEndIs(s[..|s| - 1]);
    }
  }

  /** What a generated file reads back as is printable and trimmed. */
  lemma SecondTime(vars: seq<ConVar>, existing: map<string, Setting>, m: map<string, Setting>)
    requires AllPrintable(vars, existing) && ReadsBack(vars, existing, map[], m)
    ensures AllPrintable(vars, m)
    ensures forall i :: 0 <= i < |vars| && vars[i].record ==> TrimEnd(ValueOf(vars[i], m)) == ValueOf(vars[i], m)
  {
    hide IsName;
    forall i | 0 <= i < |vars| && vars[i].record
      ensures Printable(vars[i], m) && TrimEnd(ValueOf(vars[i], m)) == ValueOf(vars[i], m)
    {
      TrimEndIs(ValueOf(vars[i], existing));
    }
  }

  /** From the second time on, regenerating writes the same file again. */
  lemma RegenerationSettles(version: string, plugin: string, vars: seq<ConVar>, existing: map<string, Setting>)
    requires PlainHeader(version, plugin) && AllPrintable(vars, existing) && Distinct(vars)
    ensures var once := Parse(Concat(FileLines(version, plugin, vars, existing)));
            var twice := Parse(Concat(FileLines(version, plugin, vars, once)));
            FileLines(version, plugin, vars, twice) == FileLines(version, plugin, vars, once)
  {
    hide Parse, Concat, FileLines;
    GenerateThenParse(version, plugin, vars, existing);
    var once := Parse(Concat(FileLines(version, plugin, vars, existing)));
    SecondTime(vars, existing, once);
    TrimmedSettles(version, plugin, vars, once);
  }

  /** When every value to be printed is trimmed already, the file is settled the first time. */
  lemma TrimmedSettles(version: string, plugin: string, vars: seq<ConVar>, existing: map<string, Setting>)
    requires PlainHeader(version, plugin) && AllPrintable(vars, existing) && Distinct(vars)
    requires forall i :: 0 <= i < |vars| && vars[i].record ==>
               TrimEnd(ValueOf(vars[i], existing)) == ValueOf(vars[i], existing)
    ensures var m := Parse(Concat(FileLines(version, plugin, vars, existing)));
            FileLines(version, plugin, vars, m) == FileLines(version, plugin, vars, existing)
  {
    GenerateThenParse(version, plugin, vars, existing);
    var m := Parse(Concat(FileLines(version, plugin, vars, existing)));
    hide Parse, Concat, FileLines;
    SameBody(vars, existing, m);
    FileLinesFrom(version, plugin, vars, existing, m);
  }

  lemma {:induction false} SameBody(vars: seq<ConVar>, existing: map<string, Setting>, m: map<string, Setting>)
    requires forall i :: 0 <= i < |vars| && vars[i].record ==> ValueOf(vars[i], m) == ValueOf(vars[i], existing)
    ensures BodyLines(vars, m) == BodyLines(vars, existing)
  {
    if vars != [] {
      assert vars[0].record ==> ValueOf(vars[0], m) == ValueOf(vars[0], existing);
      SameBody(vars[1..], existing, m);
    }
  }

  lemma FileLinesFrom(version: string, plugin: string, vars: seq<ConVar>, a: map<string, Setting>,
                      b: map<string, Setting>)
    requires BodyLines(vars, a) == BodyLines(vars, b)
    ensures FileLines(version, plugin, vars, a) == FileLines(version, plugin, vars, b)
  {
  }
}
