/** Reading, checking and writing auto-generated configs, as core/CoreConfig.cpp does it. */
module CoreConfigs {
  import opened Names
  import opened Wrappers
  import opened ConfigText

  /** SM_ParseConfig: the file is read a buffer at a time. */
  method ParseConfig(text: string) returns (cvars: map<string, Setting>)
    ensures cvars == Parse(text)
  {
    cvars := map[];
    var rest := text;
    while rest != []
      invariant ParseLines(Chunks(rest), cvars) == Parse(text)
      decreases |rest|
    {
      var n := 0;
      while n < LINE_SIZE - 1 && n < |rest| && (n == 0 || rest[n - 1] != '\n')
        invariant n <= |rest| && n <= LINE_SIZE - 1
        invariant forall i :: 0 <= i < n - 1 ==> rest[i] != '\n'
      {
        n := n + 1;
      }
      ChunkIs(rest, LINE_SIZE - 1, n);
      var d := ReadLine(rest[..n]);
      if d.Some? && Lower(d.value.name) !in cvars {
        cvars := cvars[Lower(d.value.name) := d.value];
      }
      rest := rest[n..];
    }
  }

  lemma {:induction false} ChunkIs(s: string, room: nat, n: nat)
    requires n <= |s| && n <= room && forall i :: 0 <= i < n - 1 ==> s[i] != '\n'
    requires n == room || n == |s| || (n > 0 && s[n - 1] == '\n')
    ensures Chunk(s, room) == n
  {
    if n > 0 && s[0] != '\n' {
      ChunkIs(s[1..], room - 1, n - 1);
    }
  }

  /** One line, by a pointer that moves over it. */
  method ReadLine(buffer: string) returns (d: Option<Setting>)
    ensures d == ParseLine(buffer)
  {
    hide SkipBlanks, TrimEnd, NameLength;
    var line := TakeCString(buffer);
    var ptr := SkipFrom(line, 0);
    assert line[0..] == line;
    var s := line[ptr..];
    if ptr == |line| || line[ptr] == '\n' || line[ptr] == '\r' {
      return None;
    }
    if ptr + 1 < |line| && line[ptr] == '/' && line[ptr + 1] == '/' {
      return None;
    }
    var start := ptr;
    ptr := ReadName(line, start);
    assert s[..ptr - start] == line[start..ptr] && s[ptr - start..] == line[ptr..];
    var value := ReadValue(line, ptr);
    d := Some(Setting(line[start..ptr], value));
  }

  method ReadName(line: string, start: nat) returns (ptr: nat)
    requires start <= |line|
    ensures start <= ptr <= |line| && NameLength(line[start..], NAME_SIZE - 1) == ptr - start
  {
    ptr := start;
    while ptr < |line| && !IsBreak(line[ptr]) && !IsBlank(line[ptr]) && ptr - start < NAME_SIZE - 1
      invariant start <= ptr <= |line| && ptr - start <= NAME_SIZE - 1
      invariant NameLength(line[start..], NAME_SIZE - 1) == ptr - start
                + NameLength(line[ptr..], NAME_SIZE - 1 - (ptr - start))
    {
      assert line[ptr..][1..] == line[ptr + 1..];
      ptr := ptr + 1;
    }
  }

  method ReadValue(line: string, from: nat) returns (value: string)
    requires from <= |line|
    ensures value == Unquote(TrimEnd(SkipBlanks(line[from..])))
  {
    hide SkipBlanks, TrimEnd;
    var ptr := SkipFrom(line, from);
    var end := TrimTo(line, ptr);
    if ptr < end && line[ptr] == '"' {
      assert line[ptr..end][1..] == line[ptr + 1..end];
      ptr := ptr + 1;
    }
    value := line[ptr..end];
  }

  method TrimTo(line: string, ptr: nat) returns (end: nat)
    requires ptr <= |line|
    ensures ptr <= end <= |line| && line[ptr..end] == TrimEnd(line[ptr..])
  {
    end := |line|;
    assert line[ptr..end] == line[ptr..];
    while end > ptr && IsStripped(line[end - 1])
      invariant ptr <= end <= |line|
      invariant TrimEnd(line[ptr..end]) == TrimEnd(line[ptr..])
    {
      assert line[ptr..end][..end - ptr - 1] == line[ptr..end - 1];
      end := end - 1;
    }
  }

  method TakeCString(buffer: string) returns (line: string)
    ensures line == CString(buffer)
  {
    var n := 0;
    while n < |buffer| && buffer[n] != '\0'
      invariant n <= |buffer|
      invariant CString(buffer) == buffer[..n] + CString(buffer[n..])
    {
      assert buffer[n..][1..] == buffer[n + 1..];
      n := n + 1;
    }
    line := buffer[..n];
  }

  method SkipFrom(line: string, from: nat) returns (ptr: nat)
    requires from <= |line|
    ensures from <= ptr <= |line| && line[ptr..] == SkipBlanks(line[from..])
  {
    ptr := from;
    while ptr < |line| && IsBlank(line[ptr])
      invariant from <= ptr <= |line|
      invariant SkipBlanks(line[ptr..]) == SkipBlanks(line[from..])
    {
      assert line[ptr..][1..] == line[ptr + 1..];
      ptr := ptr + 1;
    }
  }

  /** SM_CvarExistsInPlugin */
  method CvarExistsInPlugin(vars: seq<ConVar>, name: string) returns (found: bool)
    ensures found <==> Recorded(vars, Lower(name))
  {
    for i := 0 to |vars|
      invariant forall j :: 0 <= j < i ==> !(vars[j].record && Lower(vars[j].name) == Lower(name))
    {
      if vars[i].record && Lower(vars[i].name) == Lower(name) {
        return true;
      }
    }
    return false;
  }

  /** SM_ConfigCheckRegeneration; there is no text when the file cannot be opened. */
  method CheckRegeneration(file: Option<string>, vars: seq<ConVar>)
    returns (again: bool, existing: map<string, Setting>)
    ensures existing == if file.Some? then Parse(file.value) else map[]
    ensures again <==> file.None? || NeedsRegeneration(vars, existing)
  {
    if file.None? {
      return true, map[];
    }
    var text := file.value;
    existing := ParseConfig(text);
    for i := 0 to |vars|
      invariant forall j :: 0 <= j < i && vars[j].record ==> Lower(vars[j].name) in existing
    {
      if vars[i].record && Lower(vars[i].name) !in existing {
        return true, existing;
      }
    }
    ParseKeys(text);
    var keys := existing.Keys;
    while keys != {}
      invariant keys <= existing.Keys
      invariant forall k :: k in existing && k !in keys ==> Recorded(vars, k)
      decreases |keys|
    {
      var k :| k in keys;
      var found := CvarExistsInPlugin(vars, existing[k].name);
      if !found {
        return true, existing;
      }
      keys := keys - {k};
    }
    return false, existing;
  }

  /** A setting is filed under its own name. */
  lemma ParseKeys(text: string)
    ensures forall k :: k in Parse(text) ==> Lower(Parse(text)[k].name) == k
  {
    ParseLinesKeys(Chunks(text), map[]);
  }

  lemma {:induction false} ParseLinesKeys(lines: seq<string>, m: map<string, Setting>)
    requires forall k :: k in m ==> Lower(m[k].name) == k
    ensures forall k :: k in ParseLines(lines, m) ==> Lower(ParseLines(lines, m)[k].name) == k
  {
    if lines != [] {
      ParseLinesKeys(lines[1..], Define(m, lines[0]));
    }
  }

  lemma {:induction false} ConcatAppend(a: seq<string>, b: seq<string>)
    ensures Concat(a + b) == Concat(a) + Concat(b)
  {
    if a == [] {
      assert a + b == b;
    } else {
      assert (a + b)[1..] == a[1..] + b;
      ConcatAppend(a[1..], b);
    }
  }

  lemma ConcatOne(l: string)
    ensures Concat([l]) == l
  {
    assert [l][1..] == [];
  }

  /** One `fprintf` that ends a line. */
  method Print(file: string, ghost lines: seq<string>, l: string) returns (r: string)
    requires file == Concat(lines)
    ensures r == Concat(lines + [l])
  {
    ConcatAppend(lines, [l]);
    ConcatOne(l);
    r := file + l;
  }

  /** SM_GenerateConfigFile, as far as what it writes. */
  method GenerateConfigFile(version: string, plugin: string, vars: seq<ConVar>, existing: map<string, Setting>)
    returns (file: string)
    ensures file == Concat(FileLines(version, plugin, vars, existing))
  {
    hide Concat, Framed, ConVarLines;
    file := WriteTop(version, plugin);
    ghost var lines := TopLines(version, plugin);
    for i := 0 to |vars|
      invariant file == Concat(lines)
      invariant lines + BodyLines(vars[i..], existing) == TopLines(version, plugin) + BodyLines(vars, existing)
    {
      var text := WriteConVar(vars[i], existing);
      assert vars[i..][0] == vars[i] && vars[i..][1..] == vars[i + 1..];
      ConcatAppend(lines, ConVarLines(vars[i], existing));
      file := file + text;
      lines := lines + ConVarLines(vars[i], existing);
    }
    assert lines == TopLines(version, plugin) + BodyLines(vars, existing);
    file := Print(file, lines, "\n");
  }

  method WriteTop(version: string, plugin: string) returns (file: string)
    ensures file == Concat(TopLines(version, plugin))
  {
    hide Framed;
    var a, b := Framed(AUTO, version, ")"), Framed(OWNER, plugin, "\"");
    file := Print("", [], a);
    file := Print(file, [] + [a], b);
    file := Print(file, [] + [a] + [b], "\n");
    file := Print(file, [] + [a] + [b] + ["\n"], "\n");
    assert [] + [a] + [b] + ["\n"] + ["\n"] == TopLines(version, plugin);
  }

  method WriteConVar(v: ConVar, existing: map<string, Setting>) returns (text: string)
    ensures text == Concat(ConVarLines(v, existing))
  {
    hide Concat, Framed, SettingLine, HelpLines;
    if !v.record {
      NothingWritten();
      return "";
    }
    text := WriteHelp(Clip(v.help, HELP_SIZE));
    ghost var lines := HelpLines(Clip(v.help, HELP_SIZE));
    text := Print(text, lines, DASH);
    lines := lines + [DASH];
    text := Print(text, lines, Framed("// Default: \"", v.default_, "\""));
    lines := lines + [Framed("// Default: \"", v.default_, "\"")];
    if v.min.Some? {
      text := Print(text, lines, Framed("// Minimum: \"", v.min.value, "\""));
      lines := lines + [Framed("// Minimum: \"", v.min.value, "\"")];
    }
    if v.max.Some? {
      text := Print(text, lines, Framed("// Maximum: \"", v.max.value, "\""));
      lines := lines + [Framed("// Maximum: \"", v.max.value, "\"")];
    }
    assert lines == CommentLines(v);
    var value := v.default_;
    if Lower(v.name) in existing {
      value := existing[Lower(v.name)].value;
    }
    text := Print(text, lines, SettingLine(v.name, value));
    lines := lines + [SettingLine(v.name, value)];
    text := Print(text, lines, "\n");
    assert lines + ["\n"] == ConVarLines(v, existing);
  }

  lemma NothingWritten()
    ensures Concat([]) == ""
  {
  }

  lemma NoHelp()
    ensures HelpLines("") == []
  {
  }

  lemma HelpStep(s: string)
    requires s != []
    ensures var n := HelpLine(s);
            HelpLines(s) == [Framed("// ", s[..n], "")] + HelpLines(if n < |s| then s[n + 1..] else [])
  {
  }

  method LineEnd(s: string) returns (n: nat)
    ensures n == HelpLine(s)
  {
    n := 0;
    while n < |s| && s[n] != '\n'
      invariant n <= |s|
      invariant HelpLine(s) == n + HelpLine(s[n..])
    {
      assert s[n..][1..] == s[n + 1..];
      n := n + 1;
    }
  }

  /** The help text, a comment for each of its lines. */
  method WriteHelp(descr: string) returns (text: string)
    ensures text == Concat(HelpLines(descr))
  {
    hide Concat, Framed, HelpLines;
    NothingWritten();
    NoHelp();
    text := "";
    ghost var lines := [];
    var rest := descr;
    while rest != []
      invariant text == Concat(lines) && lines + HelpLines(rest) == HelpLines(descr)
      decreases |rest|
    {
      var n := LineEnd(rest);
      HelpStep(rest);
      text := Print(text, lines, Framed("// ", rest[..n], ""));
      lines := lines + [Framed("// ", rest[..n], "")];
      rest := if n < |rest| then rest[n + 1..] else [];
    }
    assert lines == HelpLines(descr);
  }

  /** What the file system lets the server do with the config: read what is there, write a new file, and put that in
      the place of the old one. */
  datatype Disk = Disk(readable: bool, writable: bool, renames: bool)

  /** SM_ExecuteConfig. `enabled` is the core setting, `create` whether the plugin wants the file created, `hasVars`
      whether it has any variables. The file is created if missing, and written again if it does not name the
      plugin's variables any more; then it is executed, if there is one. */
  method ExecuteConfig(file: Option<string>, disk: Disk, enabled: bool, canCreate: bool, create: bool, hasVars: bool,
                       version: string, plugin: string, vars: seq<ConVar>)
    returns (now: Option<string>, executed: bool, r: bool)
    requires PlainHeader(version, plugin) && Distinct(vars) && AllPrintable(vars, map[])
    requires file.Some? && disk.readable ==> AllPrintable(vars, Parse(file.value))
    ensures executed <==> enabled && now.Some?
    ensures r <==> enabled && canCreate && (create && hasVars ==>
                    if file.None? then !disk.writable else disk.readable && !NeedsRegeneration(vars, Parse(file.value)))
    ensures now != file ==> now.Some? && !NeedsRegeneration(vars, Parse(now.value))
    ensures !(enabled && canCreate && create && hasVars && CanWrite(file, disk)) ==> now == file
    ensures enabled && canCreate && create && hasVars && CanWrite(file, disk) ==>
              && now.Some? && !NeedsRegeneration(vars, Parse(now.value))
              && (file.Some? && disk.readable && !NeedsRegeneration(vars, Parse(file.value)) ==> now == file)
              && (file.None? || !disk.readable ==> AllDefaults(vars, Parse(now.value)))
    ensures file.Some? ==>
              && now.Some?
              && (Kept(vars, Parse(file.value), Parse(now.value)) <==>
                    || disk.readable || !(enabled && canCreate && create && hasVars && CanWrite(file, disk))
                    || HeldDefaults(vars, Parse(file.value)))
  {
    hide AllPrintable, Distinct, NeedsRegeneration, FileLines, Parse, Concat, Kept, AllDefaults, HeldDefaults;
    now, executed := file, false;
    if file.Some? {
      AllKept(vars, Parse(file.value));
    }
    if !enabled {
      return now, false, false;
    }
    var willCreate := canCreate && create;
    if !willCreate || !hasVars {
      return now, file.Some?, canCreate;
    }
    if file.None? {
      if !disk.writable {
        return now, false, canCreate;
      }
      var text := GenerateConfigFile(version, plugin, vars, map[]);
      GeneratedIsCurrent(version, plugin, vars, map[]);
      DefaultsComeBack(version, plugin, vars);
      return Some(text), true, false;
    }
    var again, existing := CheckRegeneration(if disk.readable then file else None, vars);
    if !again {
      return now, true, canCreate;
    }
    if disk.writable && disk.renames {
      var text := GenerateConfigFile(version, plugin, vars, existing);
      GeneratedIsCurrent(version, plugin, vars, existing);
      if disk.readable {
        RegenerationKeeps(version, plugin, vars, file.value);
      } else {
        DefaultsComeBack(version, plugin, vars);
        KeptByDefaults(vars, Parse(file.value), Parse(text));
      }
      now := Some(text);
    }
    return now, true, false;
  }

  /** A missing file can be created, one that is there replaced. */
  predicate CanWrite(file: Option<string>, disk: Disk) { disk.writable && (file.Some? ==> disk.renames) }

  /** Every recorded variable that had a value has it still. */
  ghost predicate Kept(vars: seq<ConVar>, was: map<string, Setting>, now: map<string, Setting>) {
    forall i :: 0 <= i < |vars| && vars[i].record && Lower(vars[i].name) in was ==>
      Lower(vars[i].name) in now && now[Lower(vars[i].name)].value == was[Lower(vars[i].name)].value
  }

  /** Every recorded variable has its default, as far as that survives being read. */
  ghost predicate AllDefaults(vars: seq<ConVar>, now: map<string, Setting>) {
    forall i :: 0 <= i < |vars| && vars[i].record ==>
      Lower(vars[i].name) in now && now[Lower(vars[i].name)].value == TrimEnd(vars[i].default_)
  }

  /** Every recorded variable that has a value has its default, as far as that survives being read. */
  ghost predicate HeldDefaults(vars: seq<ConVar>, was: map<string, Setting>) {
    forall i :: 0 <= i < |vars| && vars[i].record && Lower(vars[i].name) in was ==>
      was[Lower(vars[i].name)].value == TrimEnd(vars[i].default_)
  }

  lemma KeptByDefaults(vars: seq<ConVar>, was: map<string, Setting>, now: map<string, Setting>)
    requires AllDefaults(vars, now)
    ensures Kept(vars, was, now) <==> HeldDefaults(vars, was)
  {
  }

  /** One variable, whose default is 0. */
  const ONE: seq<ConVar> := [ConVar("x", true, "", "0", None, None)]

  /** A config that sets `x` to 1 cannot be opened: it is replaced by one that sets it to its default, 0. */
  method ValueReplaced() returns (file: string, now: Option<string>)
    ensures "x" in Parse(file) && Parse(file)["x"].value == "1"
    ensures now.Some? && "x" in Parse(now.value) && Parse(now.value)["x"].value == "0"
  {
    hide Parse, SettingLine, Lower, PlainHeader, Distinct, AllPrintable, AllDefaults, HeldDefaults, Kept,
         NeedsRegeneration;
    file := SettingLine("x", "1");
    OneSetting(file);
    OnePrintable();
    var r, _, _ := ExecuteConfig(Some(file), Disk(false, true, true), true, true, true, true, "1.13", "x.smx", ONE);
    OneDefault(Parse(r.value));
    now := r;
  }

  lemma OnePrintable()
    ensures PlainHeader("1.13", "x.smx") && Distinct(ONE) && AllPrintable(ONE, map[])
  {
  }

  lemma OneDefault(now: map<string, Setting>)
    requires AllDefaults(ONE, now)
    ensures "x" in now && now["x"].value == "0"
  {
    assert ONE[0].record && TrimEnd("0") == "0" && Lower("x") == "x";
  }

  lemma OneSetting(file: string)
    requires file == SettingLine("x", "1")
    ensures Parse(file) == map["x" := Setting("x", "1")]
  {
    PrintThenParse("x", "1");
    assert TrimEnd("1") == "1" && Lower("x") == "x";
    ConcatOne(file);
    ChunksOfLines([file]);
    assert [file][1..] == [];
    assert ParseLines([file], map[]) == ParseLines([], Define(map[], file));
  }

  lemma AllKept(vars: seq<ConVar>, m: map<string, Setting>)
    ensures Kept(vars, m, m)
  {
  }

  lemma RegenerationKeeps(version: string, plugin: string, vars: seq<ConVar>, text: string)
    requires PlainHeader(version, plugin) && AllPrintable(vars, Parse(text)) && Distinct(vars)
    ensures Kept(vars, Parse(text), Parse(Concat(FileLines(version, plugin, vars, Parse(text)))))
  {
    hide AllPrintable, Distinct, FileLines, Parse, Concat;
    forall i | 0 <= i < |vars| && vars[i].record && Lower(vars[i].name) in Parse(text)
      ensures var k, m := Lower(vars[i].name), Parse(Concat(FileLines(version, plugin, vars, Parse(text))));
              k in m && m[k].value == Parse(text)[k].value
    {
      RegenerationKeepsValues(version, plugin, vars, text, i);
    }
  }

  lemma DefaultsComeBack(version: string, plugin: string, vars: seq<ConVar>)
    requires PlainHeader(version, plugin) && AllPrintable(vars, map[]) && Distinct(vars)
    ensures AllDefaults(vars, Parse(Concat(FileLines(version, plugin, vars, map[]))))
  {
    hide FileLines, Parse, Concat, Recorded;
    GenerateThenParse(version, plugin, vars, map[]);
  }
}
