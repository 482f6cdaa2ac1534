/**
 Property lookup over nested tables, and its caches (core/HalfLife2.cpp). A property is identified by its
 path: the index at each level, outermost first.
 */
module PropLookup {
  import opened Wrappers

  datatype Prop = Prop(name: Option<string>, insideArray: bool, offset: nat, inner: Option<SendTable>)
  datatype SendTable = SendTable(props: seq<Prop>)

  /** What a search finds: which property, the table inside it, and its offset from the start of the outermost table. */
  datatype Found<T> = Found(path: seq<nat>, table: Option<T>, offset: nat)

  /** UTIL_FindInSendTable from index `i` on. */
  function FindFrom(t: SendTable, name: string, i: nat, offset: nat): Option<Found<SendTable>>
    decreases t, |t.props| - i
  {
    if i >= |t.props| then None
    else
      var p := t.props[i];
      if p.insideArray then FindFrom(t, name, i + 1, offset)
      else if p.name == Some(name) then Some(Found([i], p.inner, offset + p.offset))
      else
        match if p.inner.Some? then FindFrom(p.inner.value, name, 0, offset + p.offset) else None
        case Some(f) => Some(f.(path := [i] + f.path))
        case None => FindFrom(t, name, i + 1, offset)
  }

  function FindInSendTable(t: SendTable, name: string): Option<Found<SendTable>> { FindFrom(t, name, 0, 0) }

  // What the search means.

  /** The property a path leads to, if no property on the way is an array element. */
  function At(t: SendTable, path: seq<nat>): Option<Prop>
    decreases |path|
  {
    if path == [] || path[0] >= |t.props| || t.props[path[0]].insideArray then None
    else if |path| == 1 then Some(t.props[path[0]])
    else if t.props[path[0]].inner.None? then None
    else At(t.props[path[0]].inner.value, path[1..])
  }

  /** The offsets along a path, added up. */
  function Offset(t: SendTable, path: seq<nat>): nat
    decreases |path|
  {
    if path == [] || path[0] >= |t.props| then 0
    else t.props[path[0]].offset
         + if |path| > 1 && t.props[path[0]].inner.Some? then Offset(t.props[path[0]].inner.value, path[1..]) else 0
  }

  predicate Named(t: SendTable, path: seq<nat>, name: string) {
    At(t, path).Some? && At(t, path).value.name == Some(name)
  }

  /** Depth first: a property comes before what is inside it, and before everything to its right. */
  predicate Earlier(a: seq<nat>, b: seq<nat>)
    decreases |a|
  {
    b != [] && (a == [] || a[0] < b[0] || (a[0] == b[0] && Earlier(a[1..], b[1..])))
  }

  /** The search finds a property of that name, with the sum of the offsets on its path, and no property of that
      name comes earlier. */
  ghost predicate IsFirst(t: SendTable, name: string, i: nat, offset: nat, f: Found<SendTable>) {
    && f.path != [] && f.path[0] >= i && Named(t, f.path, name)
    && f.offset == offset + Offset(t, f.path) && f.table == At(t, f.path).value.inner
    && forall path: seq<nat> :: path != [] && path[0] >= i && Named(t, path, name) ==> !Earlier(path, f.path)
  }

  lemma {:induction false} FindMeans(t: SendTable, name: string, i: nat, offset: nat)
    ensures match FindFrom(t, name, i, offset)
            case Some(f) => IsFirst(t, name, i, offset, f)
            case None => forall path: seq<nat> :: path != [] && path[0] >= i ==> !Named(t, path, name)
    decreases t, |t.props| - i
  {
    if i < |t.props| {
      var p := t.props[i];
      FindMeans(t, name, i + 1, offset);
      if p.insideArray {
        forall path: seq<nat> | path != [] && path[0] >= i && Named(t, path, name) ensures path[0] >= i + 1 {
        }
      } else if p.name == Some(name) {
        assert At(t, [i]) == Some(p);
        forall path: seq<nat> | path != [] && path[0] >= i ensures !Earlier(path, [i]) {
        }
      } else {
        if p.inner.Some? {
          FindMeans(p.inner.value, name, 0, offset + p.offset);
        }
        var f := if p.inner.Some? then FindFrom(p.inner.value, name, 0, offset + p.offset) else None;
        if f.Some? {
          Inside(t, name, i, offset, f.value);
        } else {
          forall path: seq<nat> | path != [] && path[0] >= i && Named(t, path, name) ensures path[0] >= i + 1 {
            if path[0] == i && |path| > 1 {
              assert Named(p.inner.value, path[1..], name);
            }
          }
        }
      }
    }
  }

  lemma Inside(t: SendTable, name: string, i: nat, offset: nat, f: Found<SendTable>)
    requires i < |t.props| && !t.props[i].insideArray && t.props[i].inner.Some? && t.props[i].name != Some(name)
    requires IsFirst(t.props[i].inner.value, name, 0, offset + t.props[i].offset, f)
    ensures IsFirst(t, name, i, offset, f.(path := [i] + f.path))
  {
    var path := [i] + f.path;
    assert path[1..] == f.path;
    forall q: seq<nat> | q != [] && q[0] >= i && Named(t, q, name) ensures !Earlier(q, path) {
      if q[0] == i {
        assert |q| > 1 && Named(t.props[i].inner.value, q[1..], name);
      }
    }
  }

  /** The answer is the first match depth first, with its offset the sum along its path; or there is no match. */
  lemma FindIsFirstMatch(t: SendTable, name: string)
    ensures match FindInSendTable(t, name)
            case Some(f) =>
              && Named(t, f.path, name) && f.offset == Offset(t, f.path) && f.table == At(t, f.path).value.inner
              && forall path: seq<nat> :: Named(t, path, name) ==> !Earlier(path, f.path)
            case None => forall path: seq<nat> :: !Named(t, path, name)
  {
    FindMeans(t, name, 0, 0);
  }

  /** And a first match is the only one: of two different paths one comes earlier. */
  lemma {:induction false} EarlierTotal(a: seq<nat>, b: seq<nat>)
    ensures a == b || Earlier(a, b) || Earlier(b, a)
    decreases |a|
  {
    if a != [] && b != [] && a[0] == b[0] {
      EarlierTotal(a[1..], b[1..]);
      assert a == [a[0]] + a[1..] && b == [b[0]] + b[1..];
    }
  }

  // Dotted paths.

  const COMPONENT_SIZE: nat := 256

  /** Where the next dot is, or the end. */
  function Dot(s: string): (n: nat)
    ensures n <= |s| && (n < |s| ==> s[n] == '.') && forall i :: 0 <= i < n ==> s[i] != '.'
  {
    if s == [] || s[0] == '.' then 0 else 1 + Dot(s[1..])
  }

  function Split(s: string): (r: seq<string>)
    ensures |r| > 0
    decreases |s|
  {
    var n := Dot(s);
    if n == |s| then [s] else [s[..n]] + Split(s[n + 1..])
  }

  /** The components with a dot between each two. */
  function Joined(components: seq<string>): string {
    if components == [] then [] else if |components| == 1 then components[0]
    else components[0] + "." + Joined(components[1..])
  }

  lemma JoinedStep(c: string, rest: seq<string>)
    ensures Joined([c]) == c && (rest != [] ==> Joined([c] + rest) == c + "." + Joined(rest))
  {
    assert ([c] + rest)[1..] == rest;
  }

  /** The components are what stands between the dots. */
  lemma {:induction false} SplitJoined(s: string)
    ensures Joined(Split(s)) == s && forall i :: 0 <= i < |Split(s)| ==> '.' !in Split(s)[i]
    decreases |s|
  {
    hide Split, Joined;
    var n := Dot(s);
    SplitStep(s);
    assert '.' !in s[..n];
    if n < |s| {
      var tail := Split(s[n + 1..]);
      SplitJoined(s[n + 1..]);
      JoinedStep(s[..n], tail);
      assert s == s[..n] + "." + s[n + 1..];
    } else {
      JoinedStep(s, []);
      assert s[..n] == s;
    }
  }

  predicate IsComponent(c: string) { 0 < |c| < COMPONENT_SIZE }

  /** Each component is searched for in the table the one before it led to, and the offsets add up. */
  function FindPath<T>(search: (T, string) -> Option<Found<T>>, t: T, components: seq<string>): Option<Found<T>>
    decreases |components|
  {
    if components == [] || !IsComponent(components[0]) then None
    else
      match search(t, components[0])
      case None => None
      case Some(f) =>
        if |components| == 1 then Some(f)
        else if f.table.None? then None
        else Prefixed(f.path, f.offset, FindPath(search, f.table.value, components[1..]))
  }

  function Prefixed<T>(path: seq<nat>, offset: nat, f: Option<Found<T>>): Option<Found<T>> {
    match f case None => None case Some(g) => Some(Found(path + g.path, g.table, offset + g.offset))
  }

  /** The first property of that name. */
  ghost predicate FirstNamed(t: SendTable, path: seq<nat>, name: string) {
    Named(t, path, name) && forall q: seq<nat> :: Named(t, q, name) ==> !Earlier(q, path)
  }

  /** The path runs through the first property its first component names, into the table inside it, and there leads
      where the rest of the components lead. */
  ghost predicate Leads(t: SendTable, components: seq<string>, path: seq<nat>)
    decreases |components|
  {
    && components != [] && IsComponent(components[0])
    && exists k :: 0 < k <= |path| && LeadsVia(t, components, path, k)
  }

  ghost predicate LeadsVia(t: SendTable, components: seq<string>, path: seq<nat>, k: nat)
    requires components != [] && k <= |path|
    decreases |components|, 0
  {
    && FirstNamed(t, path[..k], components[0])
    && if |components| == 1 then k == |path|
       else At(t, path[..k]).value.inner.Some? && Leads(At(t, path[..k]).value.inner.value, components[1..], path[k..])
  }

  lemma FirstIsFound(t: SendTable, name: string, path: seq<nat>)
    ensures FirstNamed(t, path, name) <==> FindInSendTable(t, name).Some? && FindInSendTable(t, name).value.path == path
  {
    FindIsFirstMatch(t, name);
    hide FindInSendTable;
    if FindInSendTable(t, name).Some? {
      EarlierTotal(FindInSendTable(t, name).value.path, path);
    }
  }

  /** A dotted path is found exactly when its components lead somewhere; it is found there, the offsets added up. */
  lemma {:induction false} PathComposes(t: SendTable, components: seq<string>)
    ensures match FindPath(FindInSendTable, t, components)
            case None => forall path :: !Leads(t, components, path)
            case Some(f) =>
              && Leads(t, components, f.path) && Named(t, f.path, components[|components| - 1])
              && f.offset == Offset(t, f.path) && f.table == At(t, f.path).value.inner
    decreases |components|
  {
    if components != [] && IsComponent(components[0]) {
      var first := FindInSendTable(t, components[0]);
      FindIsFirstMatch(t, components[0]);
      if first.None? || (|components| > 1 && first.value.table.None?) {
        forall path ensures !Leads(t, components, path) {
          OnlyVia(t, components, path);
        }
      } else if |components| == 1 {
        var path := first.value.path;
        assert path[..|path|] == path;
        FirstIsFound(t, components[0], path);
        assert LeadsVia(t, components, path, |path|);
      } else {
        PathGoesOn(t, components);
      }
    }
  }

  lemma OnlyVia(t: SendTable, components: seq<string>, path: seq<nat>)
    requires components != []
    ensures forall k: nat :: k <= |path| && LeadsVia(t, components, path, k) ==>
              FindInSendTable(t, components[0]).Some? && FindInSendTable(t, components[0]).value.path == path[..k]
  {
    forall k: nat | k <= |path| && LeadsVia(t, components, path, k)
      ensures FindInSendTable(t, components[0]).Some? && FindInSendTable(t, components[0]).value.path == path[..k]
    {
      FirstIsFound(t, components[0], path[..k]);
    }
  }

  lemma PathGoesOn(t: SendTable, components: seq<string>)
    requires |components| > 1 && IsComponent(components[0])
    requires FindInSendTable(t, components[0]).Some? && FindInSendTable(t, components[0]).value.table.Some?
    ensures match FindPath(FindInSendTable, t, components)
            case None => forall path :: !Leads(t, components, path)
            case Some(f) =>
              && Leads(t, components, f.path) && Named(t, f.path, components[|components| - 1])
              && f.offset == Offset(t, f.path) && f.table == At(t, f.path).value.inner
    decreases |components|, 0
  {
    var first := FindInSendTable(t, components[0]).value;
    var inner, rest := first.table.value, components[1..];
    var k := |first.path|;
    FindIsFirstMatch(t, components[0]);
    FirstIsFound(t, components[0], first.path);
    PathComposes(inner, rest);
    var tail := FindPath(FindInSendTable, inner, rest);
    hide FindInSendTable;
    if tail.Some? {
      var path := first.path + tail.value.path;
      assert path[..k] == first.path && path[k..] == tail.value.path;
      Nest(t, first.path, inner, tail.value.path);
      assert LeadsVia(t, components, path, k);
    } else {
      forall path ensures !Leads(t, components, path) {
        forall k: nat | k <= |path| && LeadsVia(t, components, path, k) ensures Leads(inner, rest, path[k..]) {
          OnlyVia(t, components, path);
          assert path[..k] == first.path;
        }
      }
    }
  }

  lemma {:induction false} Nest(t: SendTable, a: seq<nat>, inner: SendTable, b: seq<nat>)
    requires At(t, a).Some? && At(t, a).value.inner == Some(inner) && At(inner, b).Some?
    ensures At(t, a + b) == At(inner, b) && Offset(t, a + b) == Offset(t, a) + Offset(inner, b)
    decreases |a|
  {
    assert (a + b)[0] == a[0] && (a + b)[1..] == a[1..] + b;
    if |a| == 1 {
      assert a[1..] + b == b;
    } else {
      Nest(t.props[a[0]].inner.value, a[1..], inner, b);
    }
  }

  /** What a lookup has to answer: the first property of that name; if there is none, and the name has a dot, where
      its components lead; and nothing when neither exists. */
  ghost predicate Answers(t: SendTable, name: string, f: Option<Found<SendTable>>) {
    match f
    case Some(g) =>
      && g.offset == Offset(t, g.path) && At(t, g.path).Some? && g.table == At(t, g.path).value.inner
      && (|| FirstNamed(t, g.path, name)
          || ((forall q: seq<nat> :: !Named(t, q, name)) && '.' in name && Leads(t, Split(name), g.path)))
    case None =>
      && (forall q: seq<nat> :: !Named(t, q, name))
      && ('.' in name ==> forall path :: !Leads(t, Split(name), path))
  }

  lemma FreshAnswers(t: SendTable, name: string)
    ensures Answers(t, name, Fresh(FindInSendTable, t, name))
  {
    hide FindInSendTable, FindPath, Split, Leads;
    FindIsFirstMatch(t, name);
    PathComposes(t, Split(name));
  }

  /** What a lookup answers without its cache: the name itself, or failing that the dotted path. */
  function Fresh<T>(search: (T, string) -> Option<Found<T>>, t: T, name: string): Option<Found<T>> {
    var f := search(t, name);
    if f.None? && '.' in name then FindPath(search, t, Split(name)) else f
  }

  class PropCache {
    /** The engine's classes, in its order. */
    const classes: seq<(string, SendTable)>
    /** Per class that has been asked for: every name asked, misses included. */
    var lookups: map<string, map<string, Option<Found<SendTable>>>>

    /** The first class of that name. */
    function ClassTable(name: string, i: nat): Option<SendTable>
      decreases |classes| - i
    {
      if i >= |classes| then None else if classes[i].0 == name then Some(classes[i].1) else ClassTable(name, i + 1)
    }

    /** The first class of that name is number `i`. */
    ghost predicate IsClass(name: string, i: nat) {
      i < |classes| && classes[i].0 == name && forall j :: 0 <= j < i ==> classes[j].0 != name
    }

    lemma {:induction false} ClassFrom(name: string, from: nat, i: nat)
      requires from <= i && IsClass(name, i)
      ensures ClassTable(name, from) == Some(classes[i].1)
      decreases i - from
    {
      if from < i {
        ClassFrom(name, from + 1, i);
      }
    }

    lemma {:induction false} NoClassFrom(name: string, from: nat)
      requires forall j :: from <= j < |classes| ==> classes[j].0 != name
      ensures ClassTable(name, from).None?
      decreases |classes| - from
    {
      if from < |classes| {
        NoClassFrom(name, from + 1);
      }
    }

    lemma ClassAnswers(classname: string, name: string)
      ensures forall i: nat :: IsClass(classname, i) ==>
                && ClassTable(classname, 0) == Some(classes[i].1)
                && Answers(classes[i].1, name, Fresh(FindInSendTable, classes[i].1, name))
      ensures (forall i :: 0 <= i < |classes| ==> classes[i].0 != classname) ==> ClassTable(classname, 0).None?
    {
      hide Fresh, Answers;
      forall i: nat | IsClass(classname, i)
        ensures ClassTable(classname, 0) == Some(classes[i].1)
        ensures Answers(classes[i].1, name, Fresh(FindInSendTable, classes[i].1, name))
      {
        ClassFrom(classname, 0, i);
        FreshAnswers(classes[i].1, name);
      }
      if forall i :: 0 <= i < |classes| ==> classes[i].0 != classname {
        NoClassFrom(classname, 0);
      }
    }

    /** The caches say nothing but what a fresh search would. */
    ghost predicate Valid()
      reads this
    {
      forall c :: c in lookups ==>
        ClassTable(c, 0).Some? && forall n :: n in lookups[c] ==>
          lookups[c][n] == Fresh(FindInSendTable, ClassTable(c, 0).value, n)
    }

    constructor (classes: seq<(string, SendTable)>)
      ensures Valid() && this.classes == classes
    {
      this.classes, lookups := classes, map[];
    }

    /** _FindServerClass */
    method FindServerClass(name: string) returns (t: Option<SendTable>)
      requires Valid()
      modifies this
      ensures Valid() && t == ClassTable(name, 0) && (t.Some? ==> name in lookups)
    {
      if name in lookups {
        return ClassTable(name, 0);
      }
      var i := 0;
      while i < |classes| && classes[i].0 != name
        invariant i <= |classes| && ClassTable(name, 0) == ClassTable(name, i)
      {
        i := i + 1;
      }
      if i == |classes| {
        return None;
      }
      lookups := lookups[name := map[]];
      t := Some(classes[i].1);
    }

    /** FindSendPropInfo: whatever has been looked up before, the answer is that of a fresh search. */
    method FindSendPropInfo(classname: string, name: string) returns (f: Option<Found<SendTable>>)
      requires Valid()
      modifies this
      ensures Valid()
      ensures f == match ClassTable(classname, 0) case None => None case Some(t) => Fresh(FindInSendTable, t, name)
      ensures forall i: nat :: IsClass(classname, i) ==> Answers(classes[i].1, name, f)
      ensures (forall i :: 0 <= i < |classes| ==> classes[i].0 != classname) ==> f.None?
    {
      ClassAnswers(classname, name);
      var t := FindServerClass(classname);
      if t.None? {
        return None;
      }
      var lookup := lookups[classname];
      if name in lookup {
        return lookup[name];
      }
      f := FindInSendTable(t.value, name);
      if f.None? && '.' in name {
        f := FindInTablePath(FindInSendTable, t.value, name);
      }
      lookups := lookups[classname := lookup[name := f]];
    }
  }

  /** UTIL_FindInTablePath, with either search. */
  method FindInTablePath<T>(search: (T, string) -> Option<Found<T>>, t: T, name: string) returns (f: Option<Found<T>>)
    ensures f == FindPath(search, t, Split(name))
  {
    hide FindPath, Split, Dot;
    var table, component := t, name;
    var path: seq<nat>, baseOffset: nat := [], 0;
    PrefixedNothing(FindPath(search, t, Split(name)));
    while true
      invariant FindPath(search, t, Split(name)) ==
                Prefixed(path, baseOffset, FindPath(search, table, Split(component)))
      decreases |component|
    {
      var n := Dot(component);
      PathStep(search, table, component);
      if n == 0 || n >= COMPONENT_SIZE {
        return None;
      }
      var local := search(table, component[..n]);
      if local.None? {
        return None;
      }
      if n == |component| {
        return Some(Found(path + local.value.path, local.value.table, baseOffset + local.value.offset));
      }
      if local.value.table.None? {
        return None;
      }
      PrefixedTwice(path, baseOffset, local.value.path, local.value.offset,
                    FindPath(search, local.value.table.value, Split(component[n + 1..])));
      path, baseOffset := path + local.value.path, baseOffset + local.value.offset;
      table := local.value.table.value;
      component := component[n + 1..];
    }
  }

  lemma PrefixedNothing<T>(f: Option<Found<T>>)
    ensures Prefixed([], 0, f) == f
  {
    if f.Some? {
      assert [] + f.value.path == f.value.path;
    }
  }

  lemma PrefixedTwice<T>(a: seq<nat>, m: nat, b: seq<nat>, n: nat, f: Option<Found<T>>)
    ensures Prefixed(a, m, Prefixed(b, n, f)) == Prefixed(a + b, m + n, f)
  {
    if f.Some? {
      assert a + (b + f.value.path) == a + b + f.value.path;
    }
  }

  /** One component of a dotted path. */
  lemma PathStep<T>(search: (T, string) -> Option<Found<T>>, t: T, s: string)
    ensures var n := Dot(s);
            FindPath(search, t, Split(s)) ==
              if n == 0 || n >= COMPONENT_SIZE then None
              else
                match search(t, s[..n])
                case None => None
                case Some(f) =>
                  if n == |s| then Some(f)
                  else if f.table.None? then None
                  else Prefixed(f.path, f.offset, FindPath(search, f.table.value, Split(s[n + 1..])))
  {
    hide Split, FindPath;
    SplitStep(s);
    var n := Dot(s);
    if n == |s| {
      assert s[..n] == s;
      OneComponent(search, t, s);
    } else {
      MoreComponents(search, t, s[..n], Split(s[n + 1..]));
    }
  }

  lemma OneComponent<T>(search: (T, string) -> Option<Found<T>>, t: T, c: string)
    ensures FindPath(search, t, [c]) == if IsComponent(c) then search(t, c) else None
  {
  }

  lemma MoreComponents<T>(search: (T, string) -> Option<Found<T>>, t: T, c: string, rest: seq<string>)
    requires rest != []
    ensures FindPath(search, t, [c] + rest) ==
              if !IsComponent(c) then None
              else match search(t, c)
                   case None => None
                   case Some(f) =>
                     if f.table.None? then None else Prefixed(f.path, f.offset, FindPath(search, f.table.value, rest))
  {
    assert ([c] + rest)[0] == c && ([c] + rest)[1..] == rest;
  }

  lemma SplitStep(s: string)
    ensures var n := Dot(s); Split(s) == if n == |s| then [s] else [s[..n]] + Split(s[n + 1..])
  {
    hide Dot;
    if Dot(s) < |s| {
      assert Split(s) == [s[..Dot(s)]] + Split(s[Dot(s) + 1..]);
    }
  }

  // Data maps: a chain of maps, each of fields that may hold another map.

  datatype Field = Field(name: Option<string>, offset: nat, td: Option<DataMap>)
  datatype DataMap = DataMap(fields: seq<Field>, base: Option<DataMap>)

  /** A named field, however deep; the index after a map's last field stands for its base map. */
  datatype Entry = Entry(name: string, found: Found<DataMap>)

  function Shift(entries: seq<Entry>, i: nat, offset: nat): seq<Entry> {
    if entries == [] then []
    else var f := entries[0].found;
         [Entry(entries[0].name, Found([i] + f.path, f.table, offset + f.offset))] + Shift(entries[1..], i, offset)
  }

  /** Every named field in the order of the search: a field, what is inside it, the fields after it, and then the
      base map; each with the sum of the offsets on the way. */
  function Entries(m: DataMap): seq<Entry>
    decreases m, |m.fields| + 1
  {
    FieldEntries(m, 0) + BaseEntries(m)
  }

  function BaseEntries(m: DataMap): seq<Entry>
    decreases m, 0
  {
    if m.base.Some? then Shift(Entries(m.base.value), |m.fields|, 0) else []
  }

  function FieldEntries(m: DataMap, i: nat): seq<Entry>
    decreases m, |m.fields| - i
  {
    if i >= |m.fields| then []
    else OneField(m.fields[i], i) + FieldEntries(m, i + 1)
  }

  function OneField(d: Field, i: nat): seq<Entry>
    decreases d, 0
  {
    if d.name.None? then []
    else [Entry(d.name.value, Found([i], d.td, d.offset))]
         + if d.td.Some? then Shift(Entries(d.td.value), i, d.offset) else []
  }

  function First(entries: seq<Entry>, name: string): Option<Found<DataMap>> {
    if entries == [] then None
    else if entries[0].name == name then Some(entries[0].found)
    else First(entries[1..], name)
  }

  function FindDataMap(m: DataMap, name: string): Option<Found<DataMap>> { First(Entries(m), name) }

  lemma {:induction false} FirstConcat(a: seq<Entry>, b: seq<Entry>, name: string)
    ensures First(a + b, name) == if First(a, name).Some? then First(a, name) else First(b, name)
  {
    if a == [] {
      assert a + b == b;
    } else {
      assert (a + b)[1..] == a[1..] + b;
      FirstConcat(a[1..], b, name);
    }
  }

  lemma {:induction false} FirstShift(entries: seq<Entry>, i: nat, offset: nat, name: string)
    ensures First(Shift(entries, i, offset), name) == Prefixed([i], offset, First(entries, name))
  {
    if entries != [] {
      var s := Shift(entries, i, offset);
      assert s[1..] == Shift(entries[1..], i, offset);
      FirstShift(entries[1..], i, offset, name);
    }
  }

  /** UTIL_FindDataMapInfo: down the chain of base maps, along the fields, and into each. */
  method SearchDataMap(map_: DataMap, name: string) returns (f: Option<Found<DataMap>>)
    ensures f == FindDataMap(map_, name)
    decreases map_, 1
  {
    var m := map_;
    var path: seq<nat> := [];
    PrefixedNothing(FindDataMap(map_, name));
    while true
      invariant FindDataMap(map_, name) == Prefixed(path, 0, FindDataMap(m, name)) && (m == map_ || m < map_)
      decreases m
    {
      hide FindDataMap, FieldEntries, First;
      var g := SearchFields(m, name);
      FieldsThenBase(m, name);
      if g.Some? {
        return Some(Found(path + g.value.path, g.value.table, g.value.offset));
      }
      if m.base.None? {
        return None;
      }
      PrefixedTwice(path, 0, [|m.fields|], 0, FindDataMap(m.base.value, name));
      path := path + [|m.fields|];
      m := m.base.value;
    }
  }

  lemma FieldsThenBase(m: DataMap, name: string)
    ensures FindDataMap(m, name) ==
              if First(FieldEntries(m, 0), name).Some? then First(FieldEntries(m, 0), name)
              else if m.base.None? then None
              else Prefixed([|m.fields|], 0, FindDataMap(m.base.value, name))
  {
    FirstConcat(FieldEntries(m, 0), BaseEntries(m), name);
    if m.base.Some? {
      FirstShift(Entries(m.base.value), |m.fields|, 0, name);
    }
  }

  method SearchFields(m: DataMap, name: string) returns (f: Option<Found<DataMap>>)
    ensures f == First(FieldEntries(m, 0), name)
    decreases m, 0
  {
    for i := 0 to |m.fields|
      invariant First(FieldEntries(m, 0), name) == First(FieldEntries(m, i), name)
    {
      hide FieldEntries, First, FindDataMap;
      var d := m.fields[i];
      FieldStep(m, i, name);
      if d.name.None? {
        continue;
      }
      if d.name.value == name {
        return Some(Found([i], d.td, d.offset));
      }
      if d.td.Some? {
        var g := SearchDataMap(d.td.value, name);
        if g.Some? {
          return Some(Found([i] + g.value.path, g.value.table, d.offset + g.value.offset));
        }
      }
    }
    return None;
  }

  lemma FieldStep(m: DataMap, i: nat, name: string)
    requires i < |m.fields|
    ensures var d := m.fields[i];
            First(FieldEntries(m, i), name) ==
              if d.name.None? then First(FieldEntries(m, i + 1), name)
              else if d.name.value == name then Some(Found([i], d.td, d.offset))
              else if d.td.Some? && FindDataMap(d.td.value, name).Some?
              then Prefixed([i], d.offset, FindDataMap(d.td.value, name))
              else First(FieldEntries(m, i + 1), name)
  {
    var d := m.fields[i];
    FirstConcat(OneField(d, i), FieldEntries(m, i + 1), name);
    if d.name.Some? {
      var inner := if d.td.Some? then Shift(Entries(d.td.value), i, d.offset) else [];
      var head := Entry(d.name.value, Found([i], d.td, d.offset));
      assert ([head] + inner)[1..] == inner;
      assert First([head] + inner, name) == if head.name == name then Some(head.found) else First(inner, name);
      if d.td.Some? {
        FirstShift(Entries(d.td.value), i, d.offset, name);
      }
    }
  }

  // What the data map search means.

  /** The field a path leads to; the index after a map's last field leads to its base map. A field without a name is
      skipped, and so is what is inside it. */
  function FieldAt(m: DataMap, path: seq<nat>): Option<Field>
    decreases |path|
  {
    if path == [] || path[0] > |m.fields| then None
    else if path[0] == |m.fields| then if m.base.Some? then FieldAt(m.base.value, path[1..]) else None
    else if m.fields[path[0]].name.None? then None
    else if |path| == 1 then Some(m.fields[path[0]])
    else if m.fields[path[0]].td.None? then None
    else FieldAt(m.fields[path[0]].td.value, path[1..])
  }

  /** The offsets of the fields along a path, added up. */
  function FieldOffset(m: DataMap, path: seq<nat>): nat
    decreases |path|
  {
    if path == [] || path[0] > |m.fields| then 0
    else if path[0] == |m.fields| then if m.base.Some? then FieldOffset(m.base.value, path[1..]) else 0
    else m.fields[path[0]].offset
         + if |path| > 1 && m.fields[path[0]].td.Some? then FieldOffset(m.fields[path[0]].td.value, path[1..]) else 0
  }

  predicate FieldNamed(m: DataMap, path: seq<nat>, name: string) {
    FieldAt(m, path).Some? && FieldAt(m, path).value.name == Some(name)
  }

  /** `f` is what a search from index `i` on has to find: the first field of that name. */
  ghost predicate IsFirstField(m: DataMap, name: string, i: nat, f: Found<DataMap>) {
    && f.path != [] && f.path[0] >= i && FieldNamed(m, f.path, name)
    && f.offset == FieldOffset(m, f.path) && f.table == FieldAt(m, f.path).value.td
    && forall path: seq<nat> :: path != [] && path[0] >= i && FieldNamed(m, path, name) ==> !Earlier(path, f.path)
  }

  /** What is first inside a field, or inside the base map, is first from there on. */
  lemma InsideField(m: DataMap, name: string, i: nat, inner: DataMap, offset: nat, f: Found<DataMap>)
    requires IsFirstField(inner, name, 0, f)
    requires if i == |m.fields| then m.base == Some(inner) && offset == 0
             else && i < |m.fields| && m.fields[i].name.Some? && m.fields[i].name != Some(name)
                  && m.fields[i].td == Some(inner) && offset == m.fields[i].offset
    ensures IsFirstField(m, name, i, Found([i] + f.path, f.table, offset + f.offset))
  {
    var path := [i] + f.path;
    assert path[1..] == f.path;
    forall q: seq<nat> | q != [] && q[0] >= i && FieldNamed(m, q, name) ensures !Earlier(q, path) {
      if q[0] == i {
        assert FieldNamed(inner, q[1..], name);
        assert q[1..] != [];
      }
    }
  }

  lemma {:induction false} FieldsMean(m: DataMap, name: string, i: nat)
    requires i <= |m.fields|
    ensures match First(FieldEntries(m, i), name)
            case Some(f) => IsFirstField(m, name, i, f)
            case None => forall path: seq<nat> :: path != [] && i <= path[0] < |m.fields| ==> !FieldNamed(m, path, name)
    decreases m, |m.fields| - i
  {
    if i < |m.fields| {
      var d := m.fields[i];
      FieldStep(m, i, name);
      FieldsMean(m, name, i + 1);
      hide FieldEntries, First, FindDataMap;
      hide IsFirstField, FieldNamed;
      if d.name.None? {
        Unnamed(m, name, i);
      } else if d.name == Some(name) {
        ItIsThisField(m, name, i);
      } else {
        if d.td.Some? {
          MapMeans(d.td.value, name);
          if FindDataMap(d.td.value, name).Some? {
            InsideField(m, name, i, d.td.value, d.offset, FindDataMap(d.td.value, name).value);
          }
        }
        NothingInField(m, name, i);
        FurtherOn(m, name, i);
      }
    }
  }

  lemma Unnamed(m: DataMap, name: string, i: nat)
    requires i < |m.fields| && m.fields[i].name.None?
    ensures forall path: seq<nat> :: path != [] && path[0] == i ==> !FieldNamed(m, path, name)
    ensures forall f :: IsFirstField(m, name, i + 1, f) ==> IsFirstField(m, name, i, f)
  {
  }

  /** If nothing in a field has the name, what is first behind it is first from it on. */
  lemma FurtherOn(m: DataMap, name: string, i: nat)
    ensures (forall path: seq<nat> :: path != [] && path[0] == i ==> !FieldNamed(m, path, name)) ==>
              forall f :: IsFirstField(m, name, i + 1, f) ==> IsFirstField(m, name, i, f)
  {
    hide FieldNamed;
  }

  lemma ItIsThisField(m: DataMap, name: string, i: nat)
    requires i < |m.fields| && m.fields[i].name == Some(name)
    ensures IsFirstField(m, name, i, Found([i], m.fields[i].td, m.fields[i].offset))
  {
    assert FieldAt(m, [i]) == Some(m.fields[i]);
    forall path: seq<nat> | path != [] && path[0] >= i ensures !Earlier(path, [i]) {
      assert [i][1..] == [];
    }
  }

  lemma NothingInField(m: DataMap, name: string, i: nat)
    requires i < |m.fields| && m.fields[i].name.Some? && m.fields[i].name != Some(name)
    ensures (m.fields[i].td.Some? ==> forall path: seq<nat> :: !FieldNamed(m.fields[i].td.value, path, name)) ==>
              forall path: seq<nat> :: path != [] && path[0] == i ==> !FieldNamed(m, path, name)
  {
    forall path: seq<nat> | path != [] && path[0] == i && FieldNamed(m, path, name)
      ensures m.fields[i].td.Some? && FieldNamed(m.fields[i].td.value, path[1..], name)
    {
    }
  }

  lemma {:induction false} MapMeans(m: DataMap, name: string)
    ensures match FindDataMap(m, name)
            case Some(f) => IsFirstField(m, name, 0, f)
            case None => forall path: seq<nat> :: !FieldNamed(m, path, name)
    decreases m, |m.fields| + 1
  {
    FieldsThenBase(m, name);
    FieldsMean(m, name, 0);
    hide FieldEntries, First, FindDataMap;
    if m.base.Some? {
      MapMeans(m.base.value, name);
      if FindDataMap(m.base.value, name).Some? {
        InsideField(m, name, |m.fields|, m.base.value, 0, FindDataMap(m.base.value, name).value);
      }
    }
    NamedWhere(m, name);
    if FindDataMap(m, name).Some? && m.base.Some? {
      FirstOfBoth(m, name, FindDataMap(m, name).value);
    }
  }

  /** A path starts at a field or in the base map. */
  lemma NamedWhere(m: DataMap, name: string)
    ensures forall path: seq<nat> :: FieldNamed(m, path, name) ==>
              && path != []
              && (path[0] < |m.fields| || (m.base.Some? && FieldNamed(m.base.value, path[1..], name)))
  {
  }

  /** What is first among the fields is before anything in the base map. */
  lemma FirstOfBoth(m: DataMap, name: string, f: Found<DataMap>)
    requires IsFirstField(m, name, 0, f) ||
             (IsFirstField(m, name, |m.fields|, f)
              && forall path: seq<nat> :: path != [] && path[0] < |m.fields| ==> !FieldNamed(m, path, name))
    ensures IsFirstField(m, name, 0, f)
  {
  }

  /** The answer is the first match: a field before what is inside it, that before the fields after it, and the base
      map last; with its offset the sum along its path. Or there is no match. */
  lemma DataMapIsFirstMatch(m: DataMap, name: string)
    ensures match FindDataMap(m, name)
            case Some(f) =>
              && FieldNamed(m, f.path, name) && f.offset == FieldOffset(m, f.path)
              && f.table == FieldAt(m, f.path).value.td
              && forall path: seq<nat> :: FieldNamed(m, path, name) ==> !Earlier(path, f.path)
            case None => forall path: seq<nat> :: !FieldNamed(m, path, name)
  {
    MapMeans(m, name);
    hide FindDataMap;
  }

  // And what the paths mean there.

  /** The first field of that name. */
  ghost predicate FirstField(m: DataMap, path: seq<nat>, name: string) {
    FieldNamed(m, path, name) && forall q: seq<nat> :: FieldNamed(m, q, name) ==> !Earlier(q, path)
  }

  ghost predicate FieldLeads(m: DataMap, components: seq<string>, path: seq<nat>)
    decreases |components|
  {
    && components != [] && IsComponent(components[0])
    && exists k :: 0 < k <= |path| && FieldLeadsVia(m, components, path, k)
  }

  ghost predicate FieldLeadsVia(m: DataMap, components: seq<string>, path: seq<nat>, k: nat)
    requires components != [] && k <= |path|
    decreases |components|, 0
  {
    && FirstField(m, path[..k], components[0])
    && if |components| == 1 then k == |path|
       else FieldAt(m, path[..k]).value.td.Some?
            && FieldLeads(FieldAt(m, path[..k]).value.td.value, components[1..], path[k..])
  }

  lemma FirstFieldIsFound(m: DataMap, name: string, path: seq<nat>)
    ensures FirstField(m, path, name) <==> FindDataMap(m, name).Some? && FindDataMap(m, name).value.path == path
  {
    DataMapIsFirstMatch(m, name);
    hide FindDataMap;
    if FindDataMap(m, name).Some? {
      EarlierTotal(FindDataMap(m, name).value.path, path);
    }
  }

  /** A dotted path is found exactly when its components lead somewhere; it is found there, the offsets added up. */
  lemma {:induction false} FieldPathComposes(m: DataMap, components: seq<string>)
    ensures match FindPath(FindDataMap, m, components)
            case None => forall path :: !FieldLeads(m, components, path)
            case Some(f) =>
              && FieldLeads(m, components, f.path) && FieldNamed(m, f.path, components[|components| - 1])
              && f.offset == FieldOffset(m, f.path) && f.table == FieldAt(m, f.path).value.td
    decreases |components|
  {
    hide FindDataMap;
    if components != [] && IsComponent(components[0]) {
      var first := FindDataMap(m, components[0]);
      DataMapIsFirstMatch(m, components[0]);
      if first.None? || (|components| > 1 && first.value.table.None?) {
        forall path ensures !FieldLeads(m, components, path) {
          OnlyFieldVia(m, components, path);
        }
      } else if |components| == 1 {
        var path := first.value.path;
        assert path[..|path|] == path;
        FirstFieldIsFound(m, components[0], path);
        assert FieldLeadsVia(m, components, path, |path|);
      } else {
        FieldPathGoesOn(m, components);
      }
    }
  }

  lemma OnlyFieldVia(m: DataMap, components: seq<string>, path: seq<nat>)
    requires components != []
    ensures forall k: nat :: k <= |path| && FieldLeadsVia(m, components, path, k) ==>
              FindDataMap(m, components[0]).Some? && FindDataMap(m, components[0]).value.path == path[..k]
  {
    hide FindDataMap;
    forall k: nat | k <= |path| && FieldLeadsVia(m, components, path, k)
      ensures FindDataMap(m, components[0]).Some? && FindDataMap(m, components[0]).value.path == path[..k]
    {
      FirstFieldIsFound(m, components[0], path[..k]);
    }
  }

  lemma FieldPathGoesOn(m: DataMap, components: seq<string>)
    requires |components| > 1 && IsComponent(components[0])
    requires FindDataMap(m, components[0]).Some? && FindDataMap(m, components[0]).value.table.Some?
    ensures match FindPath(FindDataMap, m, components)
            case None => forall path :: !FieldLeads(m, components, path)
            case Some(f) =>
              && FieldLeads(m, components, f.path) && FieldNamed(m, f.path, components[|components| - 1])
              && f.offset == FieldOffset(m, f.path) && f.table == FieldAt(m, f.path).value.td
    decreases |components|, 0
  {
    hide FindDataMap;
    var first := FindDataMap(m, components[0]).value;
    var inner, rest := first.table.value, components[1..];
    var k := |first.path|;
    DataMapIsFirstMatch(m, components[0]);
    FirstFieldIsFound(m, components[0], first.path);
    FieldPathComposes(inner, rest);
    var tail := FindPath(FindDataMap, inner, rest);
    if tail.Some? {
      var path := first.path + tail.value.path;
      assert path[..k] == first.path && path[k..] == tail.value.path;
      NestField(m, first.path, inner, tail.value.path);
      assert FieldLeadsVia(m, components, path, k);
    } else {
      forall path ensures !FieldLeads(m, components, path) {
        forall k: nat | k <= |path| && FieldLeadsVia(m, components, path, k)
          ensures FieldLeads(inner, rest, path[k..])
        {
          OnlyFieldVia(m, components, path);
          assert path[..k] == first.path;
        }
      }
    }
  }

  lemma {:induction false} NestField(m: DataMap, a: seq<nat>, inner: DataMap, b: seq<nat>)
    requires FieldAt(m, a).Some? && FieldAt(m, a).value.td == Some(inner) && FieldAt(inner, b).Some?
    ensures FieldAt(m, a + b) == FieldAt(inner, b)
    ensures FieldOffset(m, a + b) == FieldOffset(m, a) + FieldOffset(inner, b)
    decreases |a|
  {
    assert (a + b)[0] == a[0] && (a + b)[1..] == a[1..] + b;
    if a[0] == |m.fields| {
      NestField(m.base.value, a[1..], inner, b);
    } else if |a| == 1 {
      assert a[1..] + b == b;
    } else {
      NestField(m.fields[a[0]].td.value, a[1..], inner, b);
    }
  }

  /** What a lookup has to answer, likewise. */
  ghost predicate FieldAnswers(m: DataMap, name: string, f: Option<Found<DataMap>>) {
    match f
    case Some(g) =>
      && g.offset == FieldOffset(m, g.path) && FieldAt(m, g.path).Some? && g.table == FieldAt(m, g.path).value.td
      && (|| FirstField(m, g.path, name)
          || ((forall q: seq<nat> :: !FieldNamed(m, q, name)) && '.' in name && FieldLeads(m, Split(name), g.path)))
    case None =>
      && (forall q: seq<nat> :: !FieldNamed(m, q, name))
      && ('.' in name ==> forall path :: !FieldLeads(m, Split(name), path))
  }

  lemma FreshFieldAnswers(m: DataMap, name: string)
    ensures FieldAnswers(m, name, Fresh(FindDataMap, m, name))
  {
    hide FindDataMap, FindPath, Split, FieldLeads;
    DataMapIsFirstMatch(m, name);
    FieldPathComposes(m, Split(name));
  }

  class DataMapCache {
    var maps: map<DataMap, map<string, Option<Found<DataMap>>>>

    ghost predicate Valid()
      reads this
    {
      forall m :: m in maps ==> forall n :: n in maps[m] ==> maps[m][n] == Fresh(FindDataMap, m, n)
    }

    constructor ()
      ensures Valid()
    {
      maps := map[];
    }

    /** FindDataMapInfo: whatever has been looked up before, the answer is that of a fresh search. */
    method FindDataMapInfo(m: DataMap, name: string) returns (f: Option<Found<DataMap>>)
      requires Valid()
      modifies this
      ensures Valid() && f == Fresh(FindDataMap, m, name) && FieldAnswers(m, name, f)
    {
      FreshFieldAnswers(m, name);
      hide FieldAnswers;
      if m !in maps {
        maps := maps[m := map[]];
      }
      var cache := maps[m];
      if name in cache {
        return cache[name];
      }
      f := SearchDataMap(m, name);
      if f.None? && '.' in name {
        f := FindInTablePath(FindDataMap, m, name);
      }
      maps := maps[m := cache[name := f]];
    }
  }
}
