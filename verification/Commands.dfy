/**
 The console command registry (core/ConCmdManager.h): which hooks there are, and the lists each one is
 threaded through. Hook and command objects are numbered as they are created.
 */
module Commands {
  import opened Names
  import opened Sequences
  import opened Wrappers

  datatype Hook = Hook(server: bool, cmd: nat, plugin: nat, group: Option<string>)

  datatype Info = Info(name: string, sourceMod: bool, owner: Option<nat>, hooks: seq<nat>)

  /** `strcmp(a, b) < 0` */
  predicate Less(a: string, b: string) {
    b != [] && (a == [] || a[0] < b[0] || (a[0] == b[0] && Less(a[1..], b[1..])))
  }

  /** The first `k` characters agree: then the next ones decide, or the shorter string is the lesser. */
  lemma {:induction false} FirstDifference(a: string, b: string, k: nat)
    requires k <= |a| && k <= |b| && a[..k] == b[..k]
    ensures k == |a| ==> (Less(a, b) <==> k < |b|)
    ensures k == |b| ==> !Less(a, b)
    ensures k < |a| && k < |b| && a[k] != b[k] ==> (Less(a, b) <==> a[k] < b[k])
  {
    if k > 0 {
      assert a[..k][0] == b[..k][0] && a[1..][..k - 1] == a[..k][1..] && b[1..][..k - 1] == b[..k][1..];
      FirstDifference(a[1..], b[1..], k - 1);
    }
  }

  lemma {:induction false} LessTrans(a: string, b: string, c: string)
    requires Less(a, b) && Less(b, c)
    ensures Less(a, c)
  {
    if a != [] && a[0] == b[0] == c[0] {
      LessTrans(a[1..], b[1..], c[1..]);
    }
  }

  lemma {:induction false} LessIrreflexive(a: string)
    ensures !Less(a, a)
  {
    if a != [] {
      LessIrreflexive(a[1..]);
    }
  }

  /** Nothing stands after something that sorts above it. */
  ghost predicate Ordered(s: seq<nat>, name: map<nat, string>) {
    forall a: nat, b: nat :: Before(s, a, b) ==> a in name && b in name && !Less(name[b], name[a])
  }

  datatype Registry = Registry(hooks: map<nat, Hook>, infos: map<nat, Info>, trie: map<string, nat>,
                               cmdList: seq<nat>, lists: map<nat, seq<nat>>, groups: map<string, seq<nat>>)
  {
    ghost predicate OfCommand(h: nat, c: nat) { h in hooks && hooks[h].cmd == c }

    ghost predicate OfPlugin(h: nat, p: nat) { h in hooks && hooks[h].plugin == p }

    ghost predicate OfGroup(h: nat, g: string) { h in hooks && hooks[h].group == Some(g) }

    /** Every hook is on its command's list, once. */
    ghost predicate Hooked() {
      && (forall h :: h in hooks ==> hooks[h].cmd in infos)
      && (forall c :: c in infos ==> NoDup(infos[c].hooks))
      && (forall c :: c in infos ==> forall h :: h in infos[c].hooks <==> OfCommand(h, c))
    }

    /** Every hook is on its plugin's list, once. */
    ghost predicate Owned() {
      && (forall h :: h in hooks ==> hooks[h].plugin in lists)
      && (forall p :: p in lists ==> NoDup(lists[p]))
      && (forall p :: p in lists ==> forall h :: h in lists[p] <==> OfPlugin(h, p))
    }

    /** Every admin command's hook is on its group's list, once. */
    ghost predicate Grouped() {
      && (forall h :: h in hooks && hooks[h].group.Some? ==> hooks[h].group.value in groups)
      && (forall g :: g in groups ==> NoDup(groups[g]))
      && (forall g :: g in groups ==> forall h :: h in groups[g] <==> OfGroup(h, g))
    }

    /** The lookup table holds every command under its name, whatever the case. */
    ghost predicate Named() {
      && (forall k :: k in trie ==> trie[k] in infos && Lower(infos[trie[k]].name) == k)
      && (forall c :: c in infos ==> Lower(infos[c].name) in trie && trie[Lower(infos[c].name)] == c)
    }

    function CommandNames(): map<nat, string> { map c | c in infos :: infos[c].name }

    function HookNames(): map<nat, string> {
      map h | h in hooks && hooks[h].cmd in infos :: infos[hooks[h].cmd].name
    }

    /** The help list holds the same commands as the lookup table, and both kinds of list are sorted. */
    ghost predicate Listed() {
      && NoDup(cmdList) && (forall c :: c in cmdList <==> c in infos)
      && Ordered(cmdList, CommandNames())
      && (forall p :: p in lists ==> Ordered(lists[p], HookNames()))
    }

    /** Every command has hooks, and one SourceMod created belongs to the plugin of the first. */
    ghost predicate Credited(but: set<nat>) {
      forall c :: c in infos && c !in but ==>
        && infos[c].hooks != []
        && (infos[c].sourceMod ==>
              infos[c].hooks[0] in hooks && infos[c].owner == Some(hooks[infos[c].hooks[0]].plugin))
    }

    /** What holds of the registry while the commands `but` wait for their first hook. */
    ghost predicate InvBut(but: set<nat>) {
      Hooked() && Owned() && Grouped() && Named() && Listed() && Credited(but)
    }

    ghost predicate Inv() { InvBut({}) }
  }

  /** What is left of a command without the hooks `gone`. */
  function Left(r: Registry, c: nat, gone: set<nat>): seq<nat>
    requires c in r.infos
  {
    Keep(r.infos[c].hooks, gone)
  }

  /** A command that lost hooks is credited to the plugin of the first one left. */
  function Credit(r: Registry, c: nat, gone: set<nat>): Option<nat>
    requires c in r.infos
  {
    var hs := Left(r, c, gone);
    if hs != [] && hs != r.infos[c].hooks && hs[0] in r.hooks then Some(r.hooks[hs[0]].plugin) else r.infos[c].owner
  }

  function LeftInfos(r: Registry, gone: set<nat>): map<nat, Info> {
    map c | c in r.infos && Left(r, c, gone) != [] ::
      r.infos[c].(hooks := Left(r, c, gone), owner := Credit(r, c, gone))
  }

  function Dead(r: Registry, gone: set<nat>): set<nat> { set c | c in r.infos && Left(r, c, gone) == [] }

  function LeftTrie(r: Registry, dead: set<nat>): map<string, nat> {
    map k | k in r.trie && r.trie[k] in r.infos && r.trie[k] !in dead :: r.trie[k]
  }

  function KeepAll<K>(m: map<K, seq<nat>>, gone: set<nat>): map<K, seq<nat>> { map k | k in m :: Keep(m[k], gone) }

  /** The registry once the hooks `gone` are deleted. */
  function After(r: Registry, gone: set<nat>): Registry {
    Registry(r.hooks - gone, LeftInfos(r, gone), LeftTrie(r, Dead(r, gone)), Keep(r.cmdList, Dead(r, gone)),
             KeepAll(r.lists, gone), KeepAll(r.groups, gone))
  }

  lemma KeepAllStep<K>(m: map<K, seq<nat>>, gone: set<nat>, k: K, h: nat)
    requires k in m && forall j :: j in m && j != k ==> h !in m[j]
    ensures k in KeepAll(m, gone)
    ensures KeepAll(m, gone + {h}) == KeepAll(m, gone)[k := Without(KeepAll(m, gone)[k], h)]
  {
    hide Keep, Without;
    var a, b := KeepAll(m, gone), KeepAll(m, gone + {h});
    forall j | j in m ensures b[j] == if j == k then Without(a[k], h) else a[j] {
      KeepStep(m[j], gone, h);
    }
    SameButOne(a, b, k, Without(a[k], h));
  }

  lemma SameButOne<K>(a: map<K, seq<nat>>, b: map<K, seq<nat>>, k: K, v: seq<nat>)
    requires k in a && b.Keys == a.Keys && forall j :: j in a ==> b[j] == if j == k then v else a[j]
    ensures b == a[k := v]
  {
  }

  lemma KeepStep(s: seq<nat>, gone: set<nat>, h: nat)
    ensures Keep(s, gone + {h}) == if h in s then Without(Keep(s, gone), h) else Keep(s, gone)
    ensures Keep(s, gone + {h}) == Without(Keep(s, gone), h)
  {
    KeepWithout(s, gone, h);
  }

  lemma KeepAllSame<K>(m: map<K, seq<nat>>, gone: set<nat>, h: nat)
    requires forall j :: j in m ==> h !in m[j]
    ensures KeepAll(m, gone + {h}) == KeepAll(m, gone)
  {
    forall j | j in m ensures Keep(m[j], gone + {h}) == Keep(m[j], gone) {
      KeepWithout(m[j], gone, h);
    }
  }

  lemma OrderedKeep(s: seq<nat>, gone: set<nat>, name: map<nat, string>, name': map<nat, string>)
    requires Ordered(s, name)
    requires forall x :: x in s && x !in gone && x in name ==> x in name' && name'[x] == name[x]
    ensures Ordered(Keep(s, gone), name')
  {
    KeepOrder(s, gone);
    forall a: nat, b: nat | Before(Keep(s, gone), a, b)
      ensures a in name' && b in name' && !Less(name'[b], name'[a])
    {
      assert Before(s, a, b);
      BeforeIn(Keep(s, gone), a, b);
    }
  }

  lemma BeforeIn(s: seq<nat>, a: nat, b: nat)
    requires Before(s, a, b)
    ensures a in s && b in s
  {
  }

  lemma KeepNoDup(s: seq<nat>, gone: set<nat>)
    requires NoDup(s)
    ensures NoDup(Keep(s, gone))
  {
    KeepOrder(s, gone);
    OrderWithinNoDup(Keep(s, gone), s);
  }

  /** Deleting any set of hooks leaves a consistent registry. */
  lemma AfterInv(r: Registry, gone: set<nat>)
    requires r.Inv()
    ensures After(r, gone).Inv()
  {
    hide Registry.Hooked, Registry.Owned, Registry.Grouped, Registry.Named, Registry.Listed, Registry.Credited, After;
    AfterHooked(r, gone);
    AfterOwned(r, gone);
    AfterGrouped(r, gone);
    AfterNamed(r, gone);
    AfterListed(r, gone);
    AfterCredited(r, gone);
  }

  lemma AfterHooked(r: Registry, gone: set<nat>)
    requires r.Hooked()
    ensures After(r, gone).Hooked()
  {
    var a := After(r, gone);
    forall c | c in a.infos ensures NoDup(a.infos[c].hooks) {
      KeepNoDup(r.infos[c].hooks, gone);
    }
    forall c, h | c in a.infos ensures h in a.infos[c].hooks <==> a.OfCommand(h, c) {
      assert h in r.infos[c].hooks <==> r.OfCommand(h, c);
    }
    forall h | h in a.hooks ensures a.hooks[h].cmd in a.infos {
      assert r.OfCommand(h, r.hooks[h].cmd);
      assert h in Left(r, r.hooks[h].cmd, gone);
    }
  }

  lemma AfterOwned(r: Registry, gone: set<nat>)
    requires r.Owned()
    ensures After(r, gone).Owned()
  {
    var a := After(r, gone);
    forall p | p in a.lists ensures NoDup(a.lists[p]) {
      KeepNoDup(r.lists[p], gone);
    }
    forall p, h | p in a.lists ensures h in a.lists[p] <==> a.OfPlugin(h, p) {
      assert h in r.lists[p] <==> r.OfPlugin(h, p);
    }
  }

  lemma AfterGrouped(r: Registry, gone: set<nat>)
    requires r.Grouped()
    ensures After(r, gone).Grouped()
  {
    var a := After(r, gone);
    forall g | g in a.groups ensures NoDup(a.groups[g]) {
      KeepNoDup(r.groups[g], gone);
    }
    forall g, h | g in a.groups ensures h in a.groups[g] <==> a.OfGroup(h, g) {
      assert h in r.groups[g] <==> r.OfGroup(h, g);
    }
  }

  lemma AfterNamed(r: Registry, gone: set<nat>)
    requires r.Named()
    ensures After(r, gone).Named()
  {
  }

  lemma AfterListed(r: Registry, gone: set<nat>)
    requires r.Listed() && r.Hooked()
    ensures After(r, gone).Listed()
  {
    hide Registry.Hooked, Ordered, Credit, LeftInfos, LeftTrie;
    var a := After(r, gone);
    AfterCmdList(r, gone);
    forall p | p in a.lists ensures Ordered(a.lists[p], a.HookNames()) {
      AfterNames(r, gone);
      OrderedKeep(r.lists[p], gone, r.HookNames(), a.HookNames());
    }
  }

  lemma AfterCmdList(r: Registry, gone: set<nat>)
    requires r.Listed()
    ensures var a := After(r, gone);
            NoDup(a.cmdList) && (forall c :: c in a.cmdList <==> c in a.infos) && Ordered(a.cmdList, a.CommandNames())
  {
    hide Ordered, Credit, Left, KeepAll, LeftTrie;
    KeepNoDup(r.cmdList, Dead(r, gone));
    OrderedKeep(r.cmdList, Dead(r, gone), r.CommandNames(), After(r, gone).CommandNames());
  }

  lemma AfterNames(r: Registry, gone: set<nat>)
    requires r.Hooked()
    ensures forall h :: h in r.HookNames() && h !in gone ==>
              h in After(r, gone).HookNames() && After(r, gone).HookNames()[h] == r.HookNames()[h]
  {
    forall h | h in r.HookNames() && h !in gone ensures h in After(r, gone).HookNames() {
      assert r.OfCommand(h, r.hooks[h].cmd);
      assert h in Left(r, r.hooks[h].cmd, gone);
    }
  }

  lemma AfterCredited(r: Registry, gone: set<nat>)
    requires r.Credited({}) && r.Hooked()
    ensures After(r, gone).Credited({})
  {
    var a := After(r, gone);
    forall c | c in a.infos && a.infos[c].sourceMod
      ensures a.infos[c].hooks[0] in a.hooks && a.infos[c].owner == Some(a.hooks[a.infos[c].hooks[0]].plugin)
    {
      var h := Left(r, c, gone)[0];
      assert h in Left(r, c, gone);
      assert h in r.infos[c].hooks;
      assert r.OfCommand(h, c);
    }
  }

  lemma LeftStep(r: Registry, gone: set<nat>, h: nat)
    requires r.Hooked() && h in r.hooks
    ensures forall d :: d in r.infos ==>
              Left(r, d, gone + {h}) == if d == r.hooks[h].cmd then Without(Left(r, d, gone), h) else Left(r, d, gone)
  {
    forall d | d in r.infos
      ensures Left(r, d, gone + {h}) == if d == r.hooks[h].cmd then Without(Left(r, d, gone), h) else Left(r, d, gone)
    {
      KeepWithout(r.infos[d].hooks, gone, h);
      assert h in r.infos[d].hooks <==> r.OfCommand(h, d);
    }
  }

  lemma LeftIs(r: Registry, gone: set<nat>, c: nat, h: nat)
    requires r.Hooked() && c in r.infos
    ensures h in Left(r, c, gone) <==> r.OfCommand(h, c) && h !in gone
  {
    assert h in r.infos[c].hooks <==> r.OfCommand(h, c);
  }

  /** The commands, once one more hook is deleted: its own loses it, and goes if it was the last. */
  lemma OneLessCommand(r: Registry, gone: set<nat>, h: nat)
    requires r.Hooked() && h in r.hooks && h !in gone
    ensures var a, b, c := After(r, gone), After(r, gone + {h}), r.hooks[h].cmd;
            && c in a.infos
            && var hs := Without(a.infos[c].hooks, h);
               if hs == [] then b.infos == a.infos - {c}
               else hs[0] in r.hooks && hs[0] != h && hs[0] !in gone
                    && b.infos == a.infos[c := a.infos[c].(hooks := hs, owner := Some(r.hooks[hs[0]].plugin))]
  {
    hide Registry.Hooked, Left, LeftInfos, Credit, LeftTrie, Dead, KeepAll;
    var c := r.hooks[h].cmd;
    HookedCommand(r, h);
    LeftIs(r, gone, c, h);
    LeftStep(r, gone, h);
    InLeftInfos(r, gone, c);
    var hs := Without(Left(r, c, gone), h);
    if hs == [] {
      LastHook(r, gone, c, h);
    } else {
      LeftIs(r, gone + {h}, c, hs[0]);
      OneHookLess(r, gone, c, h);
    }
  }

  lemma InLeftInfos(r: Registry, gone: set<nat>, c: nat)
    requires c in r.infos && Left(r, c, gone) != []
    ensures c in LeftInfos(r, gone)
            && LeftInfos(r, gone)[c] == r.infos[c].(hooks := Left(r, c, gone), owner := Credit(r, c, gone))
  {
  }

  ghost predicate OthersKeep(r: Registry, gone: set<nat>, c: nat, h: nat) {
    forall d :: d in r.infos && d != c ==> Left(r, d, gone + {h}) == Left(r, d, gone)
  }

  lemma LastHook(r: Registry, gone: set<nat>, c: nat, h: nat)
    requires c in r.infos && OthersKeep(r, gone, c, h) && Left(r, c, gone + {h}) == []
    ensures LeftInfos(r, gone + {h}) == LeftInfos(r, gone) - {c}
  {
    hide Left;
  }

  lemma OneHookLess(r: Registry, gone: set<nat>, c: nat, h: nat)
    requires r.Hooked() && r.OfCommand(h, c) && OthersKeep(r, gone, c, h) && Left(r, c, gone) != []
    requires Left(r, c, gone + {h}) != [] && Left(r, c, gone + {h})[0] in r.hooks
    ensures c in LeftInfos(r, gone)
    ensures LeftInfos(r, gone + {h}) ==
              LeftInfos(r, gone)[c := LeftInfos(r, gone)[c].(hooks := Left(r, c, gone + {h}),
                                                             owner := Some(r.hooks[Left(r, c, gone + {h})[0]].plugin))]
  {
    hide Left;
    LeftIs(r, gone + {h}, c, h);
    LeftIs(r, {}, c, h);
    AllLeft(r, c);
  }

  lemma HookedCommand(r: Registry, h: nat)
    requires r.Hooked() && h in r.hooks
    ensures r.hooks[h].cmd in r.infos && r.OfCommand(h, r.hooks[h].cmd)
  {
  }

  lemma AllLeft(r: Registry, c: nat)
    requires c in r.infos
    ensures Left(r, c, {}) == r.infos[c].hooks
  {
  }

  lemma OneLessNamed(r: Registry, gone: set<nat>, h: nat)
    requires r.Hooked() && r.Named() && h in r.hooks && h !in gone
    ensures var a, b, c := After(r, gone), After(r, gone + {h}), r.hooks[h].cmd;
            && c in r.infos
            && var hs, k := Without(Left(r, c, gone), h), Lower(r.infos[c].name);
               if hs == [] then b.trie == a.trie - {k} && b.cmdList == Without(a.cmdList, c)
               else b.trie == a.trie && b.cmdList == a.cmdList
  {
    hide Registry.Hooked, Registry.Named, Left, LeftTrie, LeftInfos, KeepAll;
    var c := r.hooks[h].cmd;
    HookedCommand(r, h);
    LeftIs(r, gone, c, h);
    LeftStep(r, gone, h);
    var hs := Without(Left(r, c, gone), h);
    if hs == [] {
      assert Dead(r, gone + {h}) == Dead(r, gone) + {c};
      KeepWithout(r.cmdList, Dead(r, gone), c);
      TrieStep(r, Dead(r, gone), c);
    } else {
      assert Dead(r, gone + {h}) == Dead(r, gone);
    }
  }

  lemma TrieStep(r: Registry, dead: set<nat>, c: nat)
    requires r.Named() && c in r.infos
    ensures LeftTrie(r, dead + {c}) == LeftTrie(r, dead) - {Lower(r.infos[c].name)}
  {
  }

  /** The plugin and group lists, once one more hook is deleted. */
  lemma OneLessOwned(r: Registry, gone: set<nat>, h: nat)
    requires r.Owned() && h in r.hooks && h !in gone
    ensures var a, b, p := After(r, gone), After(r, gone + {h}), r.hooks[h].plugin;
            p in a.lists && b.lists == a.lists[p := Without(a.lists[p], h)] && b.hooks == a.hooks - {h}
  {
    hide LeftInfos, LeftTrie, Dead, KeepAll;
    var p := r.hooks[h].plugin;
    forall q | q in r.lists && q != p ensures h !in r.lists[q] {
      assert h in r.lists[q] <==> r.OfPlugin(h, q);
    }
    KeepAllStep(r.lists, gone, p, h);
    MinusStep(r.hooks, gone, h);
  }

  lemma MinusStep(m: map<nat, Hook>, gone: set<nat>, h: nat)
    ensures m - (gone + {h}) == m - gone - {h}
  {
    var a, b := m - (gone + {h}), m - gone - {h};
    assert a.Keys == b.Keys;
  }

  lemma OneLessGrouped(r: Registry, gone: set<nat>, h: nat)
    requires r.Grouped() && h in r.hooks && h !in gone
    ensures var a, b, g := After(r, gone), After(r, gone + {h}), r.hooks[h].group;
            if g.None? then b.groups == a.groups
            else g.value in a.groups && b.groups == a.groups[g.value := Without(a.groups[g.value], h)]
  {
    hide LeftInfos, LeftTrie, Dead;
    var g := r.hooks[h].group;
    forall q | q in r.groups && Some(q) != g ensures h !in r.groups[q] {
      assert h in r.groups[q] <==> r.OfGroup(h, q);
    }
    if g.None? {
      KeepAllSame(r.groups, gone, h);
    } else {
      KeepAllStep(r.groups, gone, g.value, h);
    }
  }

  lemma AfterNothing(r: Registry)
    requires r.Named() && r.Credited({})
    ensures After(r, {}) == r
  {
    hide Registry.Named, Registry.Credited, Left, LeftInfos, LeftTrie, KeepAll, Keep;
    AllInfosLeft(r);
    AllNamesLeft(r);
    SameLists(r.lists);
    SameLists(r.groups);
  }

  lemma AllInfosLeft(r: Registry)
    requires r.Credited({})
    ensures LeftInfos(r, {}) == r.infos && Dead(r, {}) == {}
  {
    hide Registry.Credited, Left;
    forall c | c in r.infos ensures Left(r, c, {}) == r.infos[c].hooks != [] {
      AllLeft(r, c);
      HasHooks(r, c);
    }
  }

  lemma AllNamesLeft(r: Registry)
    requires r.Named()
    ensures LeftTrie(r, {}) == r.trie
  {
    hide Registry.Named;
    NamesLead(r);
  }

  lemma SameLists<K>(m: map<K, seq<nat>>)
    ensures KeepAll(m, {}) == m
  {
  }

  lemma HasHooks(r: Registry, c: nat)
    requires r.Credited({}) && c in r.infos
    ensures r.infos[c].hooks != []
  {
  }

  lemma NamesLead(r: Registry)
    requires r.Named()
    ensures forall k :: k in r.trie ==> r.trie[k] in r.infos
  {
  }

  /** Where a sorted list takes a name: before the first entry that sorts above it. */
  ghost predicate Slot(s: seq<nat>, name: map<nat, string>, x: string, k: nat) {
    && k <= |s|
    && (forall i :: 0 <= i < k ==> s[i] in name && !Less(x, name[s[i]]))
    && (k < |s| ==> s[k] in name && Less(x, name[s[k]]))
  }

  function Inserted(s: seq<nat>, k: nat, x: nat): seq<nat>
    requires k <= |s|
  {
    s[..k] + [x] + s[k..]
  }

  lemma InsertedMembers(s: seq<nat>, k: nat, x: nat)
    requires k <= |s|
    ensures (forall y :: y in Inserted(s, k, x) <==> y == x || y in s)
    ensures NoDup(s) && x !in s ==> NoDup(Inserted(s, k, x))
  {
    InsertOrder(s, k, x);
  }

  lemma InsertedOrdered(s: seq<nat>, name: map<nat, string>, k: nat, x: nat, name': map<nat, string>)
    requires Ordered(s, name) && x !in s && x in name' && Slot(s, name, name'[x], k)
    requires forall y :: y in s ==> y in name && y in name' && name'[y] == name[y]
    ensures Ordered(Inserted(s, k, x), name')
  {
    InsertOrder(s, k, x);
    var r := Inserted(s, k, x);
    forall a: nat, b: nat | Before(r, a, b) ensures a in name' && b in name' && !Less(name'[b], name'[a]) {
      BeforeIn(r, a, b);
      if Before(s, a, b) {
        BeforeIn(s, a, b);
      } else if a == x && b in s[k..] {
        AboveSlot(s, name, name'[x], k, b);
        LessIrreflexive(name'[x]);
        if Less(name'[b], name'[x]) {
          LessTrans(name'[x], name'[b], name'[x]);
        }
      }
    }
  }

  lemma AboveSlot(s: seq<nat>, name: map<nat, string>, x: string, k: nat, b: nat)
    requires Ordered(s, name) && Slot(s, name, x, k) && b in s[k..] && forall y :: y in s ==> y in name
    ensures b in name && Less(x, name[b])
  {
    var i :| 0 <= i < |s[k..]| && s[k..][i] == b;
    assert s[k + i] == b;
    if i > 0 {
      assert Before(s, s[k], s[k + i]);
      LessTotal(x, name[s[k]], name[b]);
    }
  }

  lemma {:induction false} LessTotal(a: string, b: string, c: string)
    requires Less(a, b) && !Less(c, b)
    ensures Less(a, c)
  {
    if c != [] && b != [] && a != [] && a[0] == b[0] == c[0] {
      LessTotal(a[1..], b[1..], c[1..]);
    }
  }

  /** A command without hooks as yet is entered in the lookup table and the help list. */
  function Created(r: Registry, c: nat, info: Info, k: nat): Registry
    requires k <= |r.cmdList|
  {
    r.(infos := r.infos[c := info], trie := r.trie[Lower(info.name) := c], cmdList := Inserted(r.cmdList, k, c))
  }

  lemma CreatedInv(r: Registry, c: nat, info: Info, k: nat)
    requires r.Inv() && c !in r.infos && info.hooks == [] && Lower(info.name) !in r.trie
    requires k <= |r.cmdList| && Slot(r.cmdList, r.CommandNames(), info.name, k)
    ensures Created(r, c, info, k).InvBut({c})
  {
    hide Registry.Listed, Registry.Named, Registry.Hooked, Slot;
    CreatedListed(r, c, info, k);
    CreatedNamed(r, c, info, k);
    CreatedHooked(r, c, info, k);
  }

  lemma CreatedNamed(r: Registry, c: nat, info: Info, k: nat)
    requires r.Named() && c !in r.infos && Lower(info.name) !in r.trie && k <= |r.cmdList|
    ensures Created(r, c, info, k).Named()
  {
  }

  lemma CreatedHooked(r: Registry, c: nat, info: Info, k: nat)
    requires r.Hooked() && c !in r.infos && info.hooks == [] && k <= |r.cmdList|
    ensures Created(r, c, info, k).Hooked()
  {
  }

  lemma CreatedListed(r: Registry, c: nat, info: Info, k: nat)
    requires r.Listed() && r.Hooked() && c !in r.infos
    requires k <= |r.cmdList| && Slot(r.cmdList, r.CommandNames(), info.name, k)
    ensures Created(r, c, info, k).Listed()
  {
    hide Slot, Ordered, Inserted;
    var n := Created(r, c, info, k);
    InsertedMembers(r.cmdList, k, c);
    InsertedOrdered(r.cmdList, r.CommandNames(), k, c, n.CommandNames());
    assert n.HookNames() == r.HookNames();
  }

  function ListOf<K>(m: map<K, seq<nat>>, k: K): seq<nat> { if k in m then m[k] else [] }

  /** A hook joins its command's list, its plugin's and, for an admin command, its group's. */
  function Attached(r: Registry, h: nat, hook: Hook, k: nat): Registry
    requires hook.cmd in r.infos && k <= |ListOf(r.lists, hook.plugin)|
  {
    var info := r.infos[hook.cmd];
    r.(hooks := r.hooks[h := hook],
       infos := r.infos[hook.cmd := info.(hooks := info.hooks + [h])],
       lists := r.lists[hook.plugin := Inserted(ListOf(r.lists, hook.plugin), k, h)],
       groups := if hook.group.Some? then r.groups[hook.group.value := ListOf(r.groups, hook.group.value) + [h]]
                 else r.groups)
  }

  lemma AttachedInv(r: Registry, h: nat, hook: Hook, k: nat)
    requires r.InvBut({hook.cmd}) && h !in r.hooks && hook.cmd in r.infos
    requires Slot(ListOf(r.lists, hook.plugin), r.HookNames(), r.infos[hook.cmd].name, k)
    requires r.infos[hook.cmd].hooks != [] ==> r.Inv()
    requires r.infos[hook.cmd].hooks == [] && r.infos[hook.cmd].sourceMod ==>
               r.infos[hook.cmd].owner == Some(hook.plugin)
    ensures Attached(r, h, hook, k).Inv()
  {
    hide Registry.Hooked, Registry.Owned, Registry.Grouped, Registry.Named, Registry.Listed, Registry.Credited,
         Attached;
    AttachedHooked(r, h, hook, k);
    AttachedOwned(r, h, hook, k);
    AttachedGrouped(r, h, hook, k);
    AttachedNamed(r, h, hook, k);
    AttachedListed(r, h, hook, k);
    AttachedCredited(r, h, hook, k);
  }

  lemma AttachedHooked(r: Registry, h: nat, hook: Hook, k: nat)
    requires r.Hooked() && h !in r.hooks && hook.cmd in r.infos && k <= |ListOf(r.lists, hook.plugin)|
    ensures Attached(r, h, hook, k).Hooked()
  {
    var n, c := Attached(r, h, hook, k), hook.cmd;
    assert h in r.infos[c].hooks <==> r.OfCommand(h, c);
    forall d, x | d in n.infos ensures x in n.infos[d].hooks <==> n.OfCommand(x, d) {
      assert x in r.infos[d].hooks <==> r.OfCommand(x, d);
    }
  }

  lemma AttachedOwned(r: Registry, h: nat, hook: Hook, k: nat)
    requires r.Owned() && h !in r.hooks && hook.cmd in r.infos && k <= |ListOf(r.lists, hook.plugin)|
    ensures Attached(r, h, hook, k).Owned()
  {
    var n, p := Attached(r, h, hook, k), hook.plugin;
    NotListed(r, h);
    InsertOrder(ListOf(r.lists, p), k, h);
    forall q, x | q in n.lists ensures x in n.lists[q] <==> n.OfPlugin(x, q) {
      if q in r.lists {
        assert x in r.lists[q] <==> r.OfPlugin(x, q);
      }
    }
  }

  lemma NotListed(r: Registry, h: nat)
    requires r.Owned() && h !in r.hooks
    ensures forall p :: h !in ListOf(r.lists, p)
  {
    forall p ensures h !in ListOf(r.lists, p) {
      if p in r.lists {
        assert h in r.lists[p] <==> r.OfPlugin(h, p);
      }
    }
  }

  lemma AttachedGrouped(r: Registry, h: nat, hook: Hook, k: nat)
    requires r.Grouped() && h !in r.hooks && hook.cmd in r.infos && k <= |ListOf(r.lists, hook.plugin)|
    ensures Attached(r, h, hook, k).Grouped()
  {
    var n := Attached(r, h, hook, k);
    forall g | g in r.groups ensures h !in r.groups[g] {
      assert h in r.groups[g] <==> r.OfGroup(h, g);
    }
    forall g, x | g in n.groups ensures x in n.groups[g] <==> n.OfGroup(x, g) {
      if g in r.groups {
        assert x in r.groups[g] <==> r.OfGroup(x, g);
      }
    }
  }

  lemma AttachedNamed(r: Registry, h: nat, hook: Hook, k: nat)
    requires r.Named() && hook.cmd in r.infos && k <= |ListOf(r.lists, hook.plugin)|
    ensures Attached(r, h, hook, k).Named()
  {
  }

  lemma AttachedListed(r: Registry, h: nat, hook: Hook, k: nat)
    requires r.Listed() && r.Hooked() && r.Owned() && h !in r.hooks && hook.cmd in r.infos
    requires k <= |ListOf(r.lists, hook.plugin)|
    requires Slot(ListOf(r.lists, hook.plugin), r.HookNames(), r.infos[hook.cmd].name, k)
    ensures Attached(r, h, hook, k).Listed()
  {
    hide Slot, Ordered, Inserted, Registry.Owned, Registry.Hooked, Registry.HookNames;
    assert Attached(r, h, hook, k).CommandNames() == r.CommandNames();
    AttachedLists(r, h, hook, k);
  }

  /** The plugins' lists stay sorted. */
  lemma AttachedLists(r: Registry, h: nat, hook: Hook, k: nat)
    requires r.Hooked() && r.Owned() && h !in r.hooks && hook.cmd in r.infos
    requires forall p :: p in r.lists ==> Ordered(r.lists[p], r.HookNames())
    requires k <= |ListOf(r.lists, hook.plugin)|
    requires Slot(ListOf(r.lists, hook.plugin), r.HookNames(), r.infos[hook.cmd].name, k)
    ensures var n := Attached(r, h, hook, k); forall p :: p in n.lists ==> Ordered(n.lists[p], n.HookNames())
  {
    hide Slot, Ordered, Inserted, Registry.Owned, Registry.Hooked;
    var n, p := Attached(r, h, hook, k), hook.plugin;
    NotListed(r, h);
    AttachedNames(r, h, hook, k);
    forall q | q in r.lists ensures forall x :: x in r.lists[q] ==> x in r.HookNames() {
      ListedNames(r, q);
    }
    OrderedNone(r.HookNames());
    InsertedOrdered(ListOf(r.lists, p), r.HookNames(), k, h, n.HookNames());
    forall q | q in r.lists && q != p ensures Ordered(r.lists[q], n.HookNames()) {
      OrderedSame(r.lists[q], r.HookNames(), n.HookNames());
    }
  }

  lemma AttachedNames(r: Registry, h: nat, hook: Hook, k: nat)
    requires h !in r.hooks && hook.cmd in r.infos && k <= |ListOf(r.lists, hook.plugin)|
    ensures Attached(r, h, hook, k).HookNames() == r.HookNames()[h := r.infos[hook.cmd].name]
  {
  }

  lemma ListedNames(r: Registry, p: nat)
    requires r.Hooked() && r.Owned() && p in r.lists
    ensures forall x :: x in r.lists[p] ==> x in r.HookNames()
  {
    forall x | x in r.lists[p] ensures x in r.HookNames() {
      assert r.OfPlugin(x, p);
    }
  }

  lemma OrderedNone(name: map<nat, string>)
    ensures Ordered([], name)
  {
  }

  lemma OrderedSame(s: seq<nat>, name: map<nat, string>, name': map<nat, string>)
    requires Ordered(s, name) && forall x :: x in s && x in name ==> x in name' && name'[x] == name[x]
    ensures Ordered(s, name')
  {
    forall a: nat, b: nat | Before(s, a, b) ensures a in name' && b in name' && !Less(name'[b], name'[a]) {
      BeforeIn(s, a, b);
    }
  }

  lemma AttachedCredited(r: Registry, h: nat, hook: Hook, k: nat)
    requires r.Credited({hook.cmd}) && h !in r.hooks && hook.cmd in r.infos && k <= |ListOf(r.lists, hook.plugin)|
    requires r.infos[hook.cmd].hooks != [] ==> r.Credited({})
    requires r.infos[hook.cmd].hooks == [] && r.infos[hook.cmd].sourceMod ==>
               r.infos[hook.cmd].owner == Some(hook.plugin)
    ensures Attached(r, h, hook, k).Credited({})
  {
  }

  /** The hooks of one plugin, and of one command. */
  function HooksOf(r: Registry, p: nat): set<nat> { set h | h in r.hooks && r.hooks[h].plugin == p }

  /** `a` is `r` without the hooks of `p`, and without the commands nobody else hooked; the rest as it was. */
  ghost predicate WithoutPlugin(r: Registry, a: Registry, p: nat) {
    && (forall h :: h in a.hooks <==> h in r.hooks && r.hooks[h].plugin != p)
    && (forall h :: h in a.hooks && h in r.hooks ==> a.hooks[h] == r.hooks[h])
    && (forall c :: c in a.infos <==> HookedByOthers(r, c, p))
  }

  ghost predicate HookedByOthers(r: Registry, c: nat, p: nat) {
    exists h :: r.OfCommand(h, c) && r.hooks[h].plugin != p
  }

  /** Every list of `a` is the one of `r` with some elements left out, and other plugins' lists with none. */
  ghost predicate OrderKept(r: Registry, a: Registry, p: nat) {
    && (forall c :: c in a.infos && c in r.infos ==>
          OrderWithin(a.infos[c].hooks, r.infos[c].hooks) && a.infos[c].name == r.infos[c].name)
    && OrderWithin(a.cmdList, r.cmdList)
    && (forall g :: g in r.groups ==> g in a.groups && OrderWithin(a.groups[g], r.groups[g]))
    && (forall q :: q in r.lists && q != p ==> q in a.lists && a.lists[q] == r.lists[q])
  }

  /** After a plugin is unloaded none of its hooks is left anywhere, the others stand in the order they had,
      and a command is gone exactly when no other plugin hooked it. */
  lemma UnloadLeavesTheRest(r: Registry, p: nat)
    requires r.Inv()
    ensures var a := After(r, HooksOf(r, p));
            a.Inv() && a.infos.Keys <= r.infos.Keys && WithoutPlugin(r, a, p) && OrderKept(r, a, p)
  {
    hide Registry.Owned, Registry.Grouped, Registry.Named, Registry.Listed, Registry.Credited, Registry.InvBut,
         WithoutPlugin, OrderKept;
    var gone := HooksOf(r, p);
    AfterInv(r, gone);
    PluginGone(r, p);
    OrderStays(r, p);
  }

  lemma PluginGone(r: Registry, p: nat)
    requires r.Inv()
    ensures WithoutPlugin(r, After(r, HooksOf(r, p)), p) && After(r, HooksOf(r, p)).infos.Keys <= r.infos.Keys
  {
    hide Registry.Owned, Registry.Grouped, Registry.Named, Registry.Listed, Registry.Credited, Left, HookedByOthers;
    forall c ensures c in After(r, HooksOf(r, p)).infos <==> HookedByOthers(r, c, p) {
      SurvivorIff(r, p, c);
    }
  }

  lemma OrderStays(r: Registry, p: nat)
    requires r.Inv()
    ensures OrderKept(r, After(r, HooksOf(r, p)), p)
  {
    hide Registry.Hooked, Registry.Owned, Registry.Grouped, Registry.Named, Registry.Listed, Registry.Credited, Left;
    hide OrderWithin;
    var gone := HooksOf(r, p);
    var a := After(r, gone);
    forall c | c in a.infos ensures OrderWithin(a.infos[c].hooks, r.infos[c].hooks) {
      LeftOrder(r, c, gone);
    }
    KeepOrder(r.cmdList, Dead(r, gone));
    forall g | g in r.groups ensures OrderWithin(a.groups[g], r.groups[g]) {
      KeepOrder(r.groups[g], gone);
    }
    forall q | q in r.lists && q != p ensures a.lists[q] == r.lists[q] {
      OwnHooks(r, q);
    }
  }

  lemma LeftOrder(r: Registry, c: nat, gone: set<nat>)
    requires c in r.infos
    ensures OrderWithin(Left(r, c, gone), r.infos[c].hooks)
  {
    KeepOrder(r.infos[c].hooks, gone);
  }

  lemma SurvivorIff(r: Registry, p: nat, c: nat)
    requires r.Hooked()
    ensures c in LeftInfos(r, HooksOf(r, p)) <==> HookedByOthers(r, c, p)
  {
    var gone := HooksOf(r, p);
    if c in LeftInfos(r, gone) {
      var h := Left(r, c, gone)[0];
      assert h in Left(r, c, gone);
      LeftIs(r, gone, c, h);
    }
    if h :| r.OfCommand(h, c) && r.hooks[h].plugin != p {
      LeftIs(r, gone, c, h);
    }
  }

  lemma OwnHooks(r: Registry, q: nat)
    requires r.Owned() && q in r.lists
    ensures forall h :: h in r.lists[q] <==> r.OfPlugin(h, q)
  {
  }

  /** `q` is `r`, with a command of that name if there was none. */
  ghost predicate Found(r: Registry, q: Registry, c: nat, name: string, plugin: nat, engineName: Option<string>) {
    && c in q.infos
    && if Lower(name) in r.trie then q == r && c == r.trie[Lower(name)]
       else
         && c !in r.infos
         && q.infos[c] == (if engineName.Some? then Info(engineName.value, false, None, [])
                           else Info(name, true, Some(plugin), []))
         && exists k :: 0 <= k <= |r.cmdList| && q == Created(r, c, q.infos[c], k)
  }

  /** `s` is `q`, with the hook `h` at the end of its command's and its group's list, and in its plugin's. */
  ghost predicate Threaded(q: Registry, s: Registry, h: nat, hook: Hook) {
    && h !in q.hooks && hook.cmd in q.infos
    && exists k :: 0 <= k <= |ListOf(q.lists, hook.plugin)| && s == Attached(q, h, hook, k)
  }

  lemma ThreadedInv(q: Registry, s: Registry, h: nat, hook: Hook, k: nat)
    requires h !in q.hooks && hook.cmd in q.infos && q.InvBut({hook.cmd})
    requires k <= |ListOf(q.lists, hook.plugin)| && s == Attached(q, h, hook, k)
    requires Slot(ListOf(q.lists, hook.plugin), q.HookNames(), q.infos[hook.cmd].name, k)
    requires q.infos[hook.cmd].hooks != [] ==> q.Inv()
    requires q.infos[hook.cmd].hooks == [] && q.infos[hook.cmd].sourceMod ==>
               q.infos[hook.cmd].owner == Some(hook.plugin)
    ensures s.Inv() && Threaded(q, s, h, hook)
  {
    hide Slot, Registry.InvBut, Attached;
    AttachedInv(q, h, hook, k);
  }

  lemma InsertedTail(s: seq<nat>, k: nat, x: nat)
    requires k <= |s|
    ensures var t := Inserted(s, k, x);
            t != [] && if k == 0 then t[0] == x && t[1..] == s else t[0] == s[0] && t[1..] == Inserted(s[1..], k - 1, x)
  {
  }

  lemma {:induction false} KeepInserted(s: seq<nat>, k: nat, x: nat)
    requires k <= |s| && x !in s
    ensures Keep(Inserted(s, k, x), {x}) == s
  {
    var t := Inserted(s, k, x);
    InsertedTail(s, k, x);
    if k > 0 {
      KeepInserted(s[1..], k - 1, x);
    }
  }

  /** Deleting the hook just added takes the registry back: the same hooks, commands, lookup table and lists.
      (What may stay behind is an empty list of the plugin or the group, and the credit for an engine command.) */
  lemma RegisterUndone(r: Registry, q: Registry, s: Registry, h: nat, hook: Hook, name: string,
                       engineName: Option<string>)
    requires r.Inv() && q.InvBut({hook.cmd}) && (engineName.Some? ==> Lower(engineName.value) == Lower(name))
    requires Found(r, q, hook.cmd, name, hook.plugin, engineName) && Threaded(q, s, h, hook)
    ensures var a := After(s, {h});
            && a.hooks == r.hooks && a.trie == r.trie && a.cmdList == r.cmdList
            && a.infos.Keys == r.infos.Keys
            && (forall c :: c in r.infos ==> a.infos[c].hooks == r.infos[c].hooks && a.infos[c].name == r.infos[c].name)
            && (forall p :: p in r.lists ==> p in a.lists && a.lists[p] == r.lists[p])
            && (forall g :: g in r.groups ==> g in a.groups && a.groups[g] == r.groups[g])
  {
    hide Registry.Hooked, Registry.Owned, Registry.Grouped, Registry.Named, Registry.Listed, Registry.Credited;
    hide LeftInfos, LeftTrie, Dead, KeepAll, Left;
    UndoneInfos(r, q, s, h, hook, name, engineName);
    UndoneNames(r, q, s, h, hook, name, engineName);
    UndoneLists(q, s, h, hook);
    assert s.hooks - {h} == q.hooks;
  }

  lemma UndoneInfos(r: Registry, q: Registry, s: Registry, h: nat, hook: Hook, name: string, engineName: Option<string>)
    requires r.Credited({}) && q.Hooked()
    requires Found(r, q, hook.cmd, name, hook.plugin, engineName) && Threaded(q, s, h, hook)
    ensures Dead(s, {h}) == if hook.cmd in r.infos then {} else {hook.cmd}
    ensures LeftInfos(s, {h}).Keys == r.infos.Keys
    ensures forall d :: d in r.infos ==>
              LeftInfos(s, {h})[d].hooks == r.infos[d].hooks && LeftInfos(s, {h})[d].name == r.infos[d].name
  {
    hide Registry.Hooked, Registry.Credited, Left, Found, Threaded;
    FoundInfos(r, q, hook.cmd, name, hook.plugin, engineName);
    ThreadedInfos(q, s, h, hook);
    forall d | d in s.infos ensures Left(s, d, {h}) == q.infos[d].hooks {
      UndoneHooks(q, s, h, hook, d);
    }
    forall d | d in r.infos ensures r.infos[d].hooks != [] {
      HasHooks(r, d);
    }
  }

  lemma ThreadedInfos(q: Registry, s: Registry, h: nat, hook: Hook)
    requires Threaded(q, s, h, hook)
    ensures hook.cmd in q.infos && s.infos.Keys == q.infos.Keys
    ensures forall d :: d in q.infos ==> s.infos[d].name == q.infos[d].name
  {
    assert s.infos.Keys == q.infos.Keys;
  }

  lemma FoundInfos(r: Registry, q: Registry, c: nat, name: string, plugin: nat, engineName: Option<string>)
    requires Found(r, q, c, name, plugin, engineName)
    ensures q.infos.Keys == r.infos.Keys + {c} && (forall d :: d in r.infos ==> q.infos[d] == r.infos[d])
    ensures c !in r.infos ==> q.infos[c].hooks == []
  {
    assert q.infos.Keys == r.infos.Keys + {c};
  }

  lemma UndoneHooks(q: Registry, s: Registry, h: nat, hook: Hook, d: nat)
    requires q.Hooked() && Threaded(q, s, h, hook) && d in s.infos
    ensures d in q.infos && Left(s, d, {h}) == q.infos[d].hooks
  {
    assert h in q.infos[d].hooks <==> q.OfCommand(h, d);
    KeepInserted(q.infos[d].hooks, |q.infos[d].hooks|, h);
    assert Inserted(q.infos[d].hooks, |q.infos[d].hooks|, h) == q.infos[d].hooks + [h];
  }

  lemma UndoneNames(r: Registry, q: Registry, s: Registry, h: nat, hook: Hook, name: string, engineName: Option<string>)
    requires r.Named() && r.Listed() && (engineName.Some? ==> Lower(engineName.value) == Lower(name))
    requires Found(r, q, hook.cmd, name, hook.plugin, engineName) && Threaded(q, s, h, hook)
    requires Dead(s, {h}) == if hook.cmd in r.infos then {} else {hook.cmd}
    ensures After(s, {h}).trie == r.trie && After(s, {h}).cmdList == r.cmdList
  {
    hide Dead, LeftInfos, KeepAll, LeftTrie, Found, Registry.Named, Registry.Listed;
    UndoneTrie(r, q, hook.cmd, name, hook.plugin, engineName);
    SameTrie(q, s, h, hook);
  }

  lemma SameTrie(q: Registry, s: Registry, h: nat, hook: Hook)
    requires Threaded(q, s, h, hook)
    ensures s.trie == q.trie && s.cmdList == q.cmdList && forall dead :: LeftTrie(s, dead) == LeftTrie(q, dead)
  {
    assert s.infos.Keys == q.infos.Keys;
  }

  lemma UndoneTrie(r: Registry, q: Registry, c: nat, name: string, plugin: nat, engineName: Option<string>)
    requires r.Named() && r.Listed() && (engineName.Some? ==> Lower(engineName.value) == Lower(name))
    requires Found(r, q, c, name, plugin, engineName)
    ensures var dead := if c in r.infos then {} else {c};
            LeftTrie(q, dead) == r.trie && Keep(q.cmdList, dead) == r.cmdList
  {
    hide Registry.Listed, Registry.Named, Inserted, LeftTrie, Created, Keep;
    if Lower(name) in r.trie {
      NothingLeftOut(r);
      IsNamed(r, Lower(name));
    } else {
      var k :| 0 <= k <= |r.cmdList| && q == Created(r, c, q.infos[c], k);
      CreationUndone(r, q, c, k);
    }
  }

  lemma IsNamed(r: Registry, key: string)
    requires r.Named() && key in r.trie
    ensures r.trie[key] in r.infos
  {
  }

  lemma NothingLeftOut(r: Registry)
    requires r.Named()
    ensures LeftTrie(r, {}) == r.trie && Keep(r.cmdList, {}) == r.cmdList
  {
    assert LeftTrie(r, {}).Keys == r.trie.Keys;
  }

  lemma CreationUndone(r: Registry, q: Registry, c: nat, k: nat)
    requires r.Named() && r.Listed() && c !in r.infos && c in q.infos && Lower(q.infos[c].name) !in r.trie
    requires k <= |r.cmdList| && q == Created(r, c, q.infos[c], k)
    ensures LeftTrie(q, {c}) == r.trie && Keep(q.cmdList, {c}) == r.cmdList
  {
    hide Registry.Listed, Registry.Named, Inserted, LeftTrie, Keep;
    NotInCmdList(r, c);
    KeepInserted(r.cmdList, k, c);
    TrieUndone(r, q, c, k);
  }

  lemma TrieUndone(r: Registry, q: Registry, c: nat, k: nat)
    requires r.Named() && c !in r.infos && c in q.infos && Lower(q.infos[c].name) !in r.trie
    requires k <= |r.cmdList| && q == Created(r, c, q.infos[c], k)
    ensures LeftTrie(q, {c}) == r.trie
  {
    hide Inserted;
    assert LeftTrie(q, {c}).Keys == r.trie.Keys;
  }

  lemma NotInCmdList(r: Registry, c: nat)
    requires r.Listed() && c !in r.infos
    ensures c !in r.cmdList
  {
  }

  lemma UndoneLists(q: Registry, s: Registry, h: nat, hook: Hook)
    requires q.Owned() && q.Grouped() && Threaded(q, s, h, hook)
    ensures forall p :: p in q.lists ==> p in KeepAll(s.lists, {h}) && KeepAll(s.lists, {h})[p] == q.lists[p]
    ensures forall g :: g in q.groups ==> g in KeepAll(s.groups, {h}) && KeepAll(s.groups, {h})[g] == q.groups[g]
  {
    hide Registry.Owned, Registry.Grouped, Keep;
    forall p | p in q.lists ensures p in s.lists && Keep(s.lists[p], {h}) == q.lists[p] {
      UndoneList(q, s, h, hook, p);
    }
    forall g | g in q.groups ensures g in s.groups && Keep(s.groups[g], {h}) == q.groups[g] {
      UndoneGroup(q, s, h, hook, g);
    }
  }

  lemma UndoneList(q: Registry, s: Registry, h: nat, hook: Hook, p: nat)
    requires q.Owned() && Threaded(q, s, h, hook) && p in q.lists
    ensures p in s.lists && Keep(s.lists[p], {h}) == q.lists[p]
  {
    var k :| 0 <= k <= |ListOf(q.lists, hook.plugin)| && s == Attached(q, h, hook, k);
    NotListed(q, h);
    assert h !in ListOf(q.lists, p);
    KeepInserted(q.lists[p], if p == hook.plugin then k else 0, h);
  }

  lemma UndoneGroup(q: Registry, s: Registry, h: nat, hook: Hook, g: string)
    requires q.Grouped() && Threaded(q, s, h, hook) && g in q.groups
    ensures g in s.groups && Keep(s.groups[g], {h}) == q.groups[g]
  {
    assert h in q.groups[g] <==> q.OfGroup(h, g);
    KeepInserted(q.groups[g], |q.groups[g]|, h);
    assert Inserted(q.groups[g], |q.groups[g]|, h) == q.groups[g] + [h];
  }

  /** A hook of `plugin` may be the next of the command `c`. */
  ghost predicate Ready(r: Registry, c: nat, plugin: nat) {
    && c in r.infos
    && (r.infos[c].hooks != [] ==> r.Inv())
    && (r.infos[c].hooks == [] && r.infos[c].sourceMod ==> r.infos[c].owner == Some(plugin))
  }

  lemma CreatedFound(r: Registry, c: nat, info: Info, k: nat, name: string, plugin: nat, engineName: Option<string>)
    requires c !in r.infos && Lower(name) !in r.trie && k <= |r.cmdList|
    requires info == if engineName.Some? then Info(engineName.value, false, None, [])
                     else Info(name, true, Some(plugin), [])
    ensures var q := Created(r, c, info, k); Found(r, q, c, name, plugin, engineName) && Ready(q, c, plugin)
  {
  }

  lemma FoundReady(r: Registry, c: nat, plugin: nat)
    requires r.Inv() && c in r.infos
    ensures r.InvBut({c}) && Ready(r, c, plugin)
  {
  }

  lemma ReadyParts(r: Registry, c: nat, plugin: nat)
    requires r.InvBut({c}) && Ready(r, c, plugin)
    ensures r.Owned() && r.Hooked() && c in r.infos
  {
  }

  lemma ListedCommands(r: Registry)
    requires r.Inv()
    ensures forall i :: 0 <= i < |r.cmdList| ==> r.cmdList[i] in r.infos
  {
    forall i | 0 <= i < |r.cmdList| ensures r.cmdList[i] in r.infos {
      assert r.cmdList[i] in r.cmdList;
    }
  }

  /** The registry once the plugin `p` is unloaded. */
  function Unloaded(r: Registry, p: nat): Registry {
    After(r, HooksOf(r, p)).(lists := After(r, HooksOf(r, p)).lists - {p})
  }

  function Members(r: Registry, c: nat): set<nat> { set h | h in r.hooks && r.hooks[h].cmd == c }

  lemma NoList(r: Registry, p: nat)
    requires r.Inv() && p !in r.lists
    ensures HooksOf(r, p) == {}
  {
  }

  lemma Intact(r: Registry)
    requires r.Inv()
    ensures After(r, {}) == r && Loose(r, {}) == r
  {
    hide Registry.Hooked, Registry.Owned, Registry.Grouped, Registry.Listed, LeftInfos, LeftTrie, Dead;
    AfterNothing(r);
  }

  /** The hook `h` is deleted: it leaves its command and its group, and a command left without hooks goes. */
  function Detached(a: Registry, h: nat): Registry
    requires CanDetach(a, h)
  {
    var hook := a.hooks[h];
    var c := hook.cmd;
    var hs, key := Without(a.infos[c].hooks, h), Lower(a.infos[c].name);
    Registry(
      a.hooks - {h},
      if hs == [] then a.infos - {c} else a.infos[c := a.infos[c].(hooks := hs, owner := Some(a.hooks[hs[0]].plugin))],
      if hs == [] then a.trie - {key} else a.trie,
      if hs == [] then Without(a.cmdList, c) else a.cmdList,
      a.lists,
      if hook.group.None? then a.groups else a.groups[hook.group.value := Without(a.groups[hook.group.value], h)])
  }

  predicate CanDetach(a: Registry, h: nat) {
    && h in a.hooks && a.hooks[h].cmd in a.infos
    && (a.hooks[h].group.Some? ==> a.hooks[h].group.value in a.groups)
    && var hs := Without(a.infos[a.hooks[h].cmd].hooks, h);
       hs != [] ==> hs[0] in a.hooks
  }

  lemma DetachStep(r: Registry, gone: set<nat>, h: nat, lists: map<nat, seq<nat>>)
    requires r.Inv() && h in r.hooks && h !in gone
    ensures CanDetach(After(r, gone).(lists := lists), h)
    ensures After(r, gone + {h}).(lists := lists) == Detached(After(r, gone).(lists := lists), h)
  {
    hide Registry.Hooked, Registry.Owned, Registry.Grouped, Registry.Named, Registry.Listed, Registry.Credited;
    hide After, Left;
    InfosAre(r, gone, r.hooks[h].cmd);
    OneLessCommand(r, gone, h);
    OneLessNamed(r, gone, h);
    OneLessOwned(r, gone, h);
    OneLessGrouped(r, gone, h);
  }

  /** The hook at the head of the plugin's list. */
  lemma HeadOfList(r: Registry, gone: set<nat>, p: nat, h: nat)
    requires r.Inv() && p in r.lists && gone <= HooksOf(r, p)
    requires var list := Keep(r.lists[p], gone); list != [] && list[0] == h
    ensures h in r.hooks && h in HooksOf(r, p) && h !in gone
    ensures Keep(r.lists[p], gone + {h}) == Keep(r.lists[p], gone)[1..]
  {
    hide Registry.Hooked, Registry.Grouped, Registry.Named, Registry.Listed, Registry.Credited;
    var list := Keep(r.lists[p], gone);
    assert h in list;
    assert r.OfPlugin(h, p);
    KeepWithout(r.lists[p], gone, h);
    KeepNoDup(r.lists[p], gone);
    WithoutAt(list, 0);
    assert list[..0] + list[1..] == list[1..];
  }

  lemma InfosAre(r: Registry, gone: set<nat>, c: nat)
    ensures var a := After(r, gone);
            c in a.infos ==> c in r.infos && a.infos[c].name == r.infos[c].name && a.infos[c].hooks == Left(r, c, gone)
    ensures forall h :: h in After(r, gone).hooks <==> h in r.hooks && h !in gone
    ensures forall h :: h in After(r, gone).hooks ==> After(r, gone).hooks[h] == r.hooks[h]
  {
  }

  lemma AllGone(r: Registry, gone: set<nat>, p: nat)
    requires r.Inv() && gone <= HooksOf(r, p) && p in r.lists && Keep(r.lists[p], gone) == []
    ensures gone == HooksOf(r, p) && Unloaded(r, p).Inv()
    ensures Unloaded(r, p) == After(r, gone).(lists := r.lists - {p})
  {
    hide Registry.Hooked, Registry.Owned, Registry.Grouped, Registry.Named, Registry.Listed, Registry.Credited;
    OwnHooks(r, p);
    forall h | h in HooksOf(r, p) ensures h in gone {
      assert h in r.lists[p];
    }
    assert gone == HooksOf(r, p);
    AfterInv(r, gone);
    forall q | q in r.lists && q != p ensures Keep(r.lists[q], gone) == r.lists[q] {
      OwnHooks(r, q);
    }
    assert After(r, gone).lists - {p} == r.lists - {p};
    hide After;
    DropList(After(r, gone), p);
  }

  lemma DropList(a: Registry, p: nat)
    requires a.Inv() && p in a.lists && a.lists[p] == []
    ensures a.(lists := a.lists - {p}).Inv()
  {
    hide Registry.Hooked, Registry.Owned, Registry.Grouped, Registry.Named, Registry.Listed, Registry.Credited;
    DropHooked(a, a.lists - {p});
    DropNamed(a, a.lists - {p});
    DropListed(a, p);
    DropOwned(a, p);
  }

  lemma DropHooked(a: Registry, lists: map<nat, seq<nat>>)
    requires a.Hooked() && a.Credited({})
    ensures a.(lists := lists).Hooked() && a.(lists := lists).Credited({})
  {
    var b := a.(lists := lists);
    forall c, h | c in b.infos ensures h in b.infos[c].hooks <==> b.OfCommand(h, c) {
      assert h in a.infos[c].hooks <==> a.OfCommand(h, c);
    }
  }

  lemma DropNamed(a: Registry, lists: map<nat, seq<nat>>)
    requires a.Named() && a.Grouped()
    ensures a.(lists := lists).Named() && a.(lists := lists).Grouped()
  {
    var b := a.(lists := lists);
    forall g, h | g in b.groups ensures h in b.groups[g] <==> b.OfGroup(h, g) {
      assert h in a.groups[g] <==> a.OfGroup(h, g);
    }
  }

  lemma DropListed(a: Registry, p: nat)
    requires a.Listed()
    ensures a.(lists := a.lists - {p}).Listed()
  {
    hide Ordered;
    var b := a.(lists := a.lists - {p});
    assert b.HookNames() == a.HookNames() && b.CommandNames() == a.CommandNames();
  }

  lemma DropOwned(a: Registry, p: nat)
    requires a.Owned() && p in a.lists && a.lists[p] == []
    ensures a.(lists := a.lists - {p}).Owned()
  {
    var b := a.(lists := a.lists - {p});
    forall h | h in b.hooks ensures b.hooks[h].plugin in b.lists {
      assert a.OfPlugin(h, a.hooks[h].plugin);
      assert h in a.lists[a.hooks[h].plugin];
    }
    forall q, h | q in b.lists ensures h in b.lists[q] <==> b.OfPlugin(h, q) {
      assert h in a.lists[q] <==> a.OfPlugin(h, q);
    }
  }

  lemma CommandThere(r: Registry, key: string)
    requires r.Inv() && key in r.trie
    ensures r.trie[key] in r.infos && Lower(r.infos[r.trie[key]].name) == key
  {
  }

  /** The hooks `gone` are deleted, but their commands are not yet told. */
  function Loose(r: Registry, gone: set<nat>): Registry {
    r.(hooks := r.hooks - gone, lists := KeepAll(r.lists, gone), groups := KeepAll(r.groups, gone))
  }

  predicate CanUnlink(a: Registry, h: nat) {
    && h in a.hooks && a.hooks[h].plugin in a.lists && h in a.lists[a.hooks[h].plugin]
    && (a.hooks[h].group.Some? ==> a.hooks[h].group.value in a.groups)
    && var list := a.lists[a.hooks[h].plugin];
       forall i, j :: 0 <= i < j < |list| ==> list[i] != list[j]
  }

  function UnlinkedHook(a: Registry, h: nat): Registry
    requires CanUnlink(a, h)
  {
    var hook := a.hooks[h];
    a.(hooks := a.hooks - {h}, lists := a.lists[hook.plugin := Without(a.lists[hook.plugin], h)],
       groups := if hook.group.None? then a.groups
                 else a.groups[hook.group.value := Without(a.groups[hook.group.value], h)])
  }

  lemma NextMember(r: Registry, gone: set<nat>, c: nat, h: nat)
    requires r.Inv() && gone <= Members(r, c) && c in r.infos
    requires var list := Keep(r.infos[c].hooks, gone); list != [] && list[0] == h
    ensures h in Members(r, c)
    ensures Keep(r.infos[c].hooks, gone + {h}) == Keep(r.infos[c].hooks, gone)[1..]
    ensures CanUnlink(Loose(r, gone), h) && Loose(r, gone + {h}) == UnlinkedHook(Loose(r, gone), h)
  {
    hide Registry.Hooked, Registry.Owned, Registry.Grouped, Registry.Named, Registry.Listed, Registry.Credited;
    hide LeftInfos, LeftTrie, Dead, KeepAll;
    HeadOfMembers(r, gone, c, h);
    OneLessOwned(r, gone, h);
    OneLessGrouped(r, gone, h);
    AfterInv(r, gone);
    InPluginList(After(r, gone), h);
    MinusStep(r.hooks, gone, h);
  }

  lemma InPluginList(a: Registry, h: nat)
    requires a.Inv() && h in a.hooks
    ensures var p := a.hooks[h].plugin; p in a.lists && h in a.lists[p] && NoDup(a.lists[p])
  {
    assert a.OfPlugin(h, a.hooks[h].plugin);
  }

  lemma HeadOfMembers(r: Registry, gone: set<nat>, c: nat, h: nat)
    requires r.Hooked() && c in r.infos
    requires var list := Keep(r.infos[c].hooks, gone); list != [] && list[0] == h
    ensures h in Members(r, c) && h !in gone && h in r.hooks
    ensures Keep(r.infos[c].hooks, gone + {h}) == Keep(r.infos[c].hooks, gone)[1..]
  {
    var list := Keep(r.infos[c].hooks, gone);
    assert h in list;
    assert r.OfCommand(h, c);
    KeepWithout(r.infos[c].hooks, gone, h);
    KeepNoDup(r.infos[c].hooks, gone);
    WithoutAt(list, 0);
    assert list[..0] + list[1..] == list[1..];
  }

  /** With all its hooks deleted, the command is what goes. */
  lemma Unlinked(r: Registry, gone: set<nat>, c: nat, key: string)
    requires r.Inv() && gone <= Members(r, c) && c in r.infos && Keep(r.infos[c].hooks, gone) == []
    requires key == Lower(r.infos[c].name)
    ensures gone == Members(r, c) && After(r, gone).Inv()
    ensures Loose(r, gone).infos == r.infos && Loose(r, gone).trie == r.trie && Loose(r, gone).cmdList == r.cmdList
    ensures forall h :: h in Loose(r, gone).hooks ==> h in r.hooks
    ensures var a := After(r, gone);
            a == Loose(r, gone).(infos := r.infos - {c}, trie := r.trie - {key}, cmdList := Without(r.cmdList, c))
  {
    hide Registry.Hooked, Registry.Owned, Registry.Grouped, Registry.Named, Registry.Listed, Registry.Credited;
    hide LeftInfos, LeftTrie, KeepAll, Left, Members;
    LeftNone(r, gone, c);
    AfterInv(r, gone);
    AllMembers(r, gone, c);
    OnlyDead(r, gone, c);
    UntouchedInfos(r, gone, c);
    UntouchedTrie(r, c);
    KeepWithout(r.cmdList, {}, c);
    assert {} + {c} == {c};
  }

  lemma LeftNone(r: Registry, gone: set<nat>, c: nat)
    requires c in r.infos && Keep(r.infos[c].hooks, gone) == []
    ensures Left(r, c, gone) == []
  {
  }

  lemma UntouchedInfos(r: Registry, gone: set<nat>, c: nat)
    requires r.Credited({}) && c in r.infos && Left(r, c, gone) == []
    requires forall d :: d in r.infos && d != c ==> Left(r, d, gone) == r.infos[d].hooks
    ensures LeftInfos(r, gone) == r.infos - {c}
  {
    hide Left;
    var a, b := LeftInfos(r, gone), r.infos - {c};
    assert a.Keys == b.Keys;
  }

  lemma UntouchedTrie(r: Registry, c: nat)
    requires r.Named() && c in r.infos
    ensures LeftTrie(r, {c}) == r.trie - {Lower(r.infos[c].name)}
  {
    var a, b := LeftTrie(r, {c}), r.trie - {Lower(r.infos[c].name)};
    assert a.Keys == b.Keys;
  }

  lemma AllMembers(r: Registry, gone: set<nat>, c: nat)
    requires r.Hooked() && gone <= Members(r, c) && c in r.infos && Keep(r.infos[c].hooks, gone) == []
    ensures gone == Members(r, c)
    ensures forall d :: d in r.infos && d != c ==> Left(r, d, gone) == r.infos[d].hooks
  {
    forall h | h in Members(r, c) ensures h in gone {
      assert r.OfCommand(h, c);
      assert h in r.infos[c].hooks;
    }
    forall d, h | d in r.infos && d != c && h in r.infos[d].hooks ensures h !in gone {
      assert r.OfCommand(h, d);
    }
  }

  lemma OnlyDead(r: Registry, gone: set<nat>, c: nat)
    requires r.Credited({}) && c in r.infos && Left(r, c, gone) == []
    requires forall d :: d in r.infos && d != c ==> Left(r, d, gone) == r.infos[d].hooks
    ensures Dead(r, gone) == {c}
  {
    forall d | d in r.infos && d != c ensures Left(r, d, gone) != [] {
      HasHooks(r, d);
    }
  }

  /** When the engine drops a command, exactly that command and its hooks go, from every list, and the rest
      stand in the order they had. */
  lemma UnlinkLeavesTheRest(r: Registry, c: nat)
    requires r.Inv() && c in r.infos
    ensures var a := After(r, Members(r, c));
            && a.Inv() && a.infos == r.infos - {c} && a.trie == r.trie - {Lower(r.infos[c].name)}
            && a.cmdList == Without(r.cmdList, c)
            && (forall h :: h in a.hooks <==> h in r.hooks && r.hooks[h].cmd != c)
            && (forall p :: p in r.lists ==> p in a.lists && OrderWithin(a.lists[p], r.lists[p]))
            && (forall g :: g in r.groups ==> g in a.groups && OrderWithin(a.groups[g], r.groups[g]))
  {
    hide Registry.Owned, Registry.Grouped, Registry.Named, Registry.Listed, Registry.Credited, Dead, LeftInfos,
         LeftTrie;
    var gone := Members(r, c);
    NoneKept(r, c);
    Unlinked(r, gone, c, Lower(r.infos[c].name));
    forall p | p in r.lists ensures OrderWithin(Keep(r.lists[p], gone), r.lists[p]) {
      KeepOrder(r.lists[p], gone);
    }
    forall g | g in r.groups ensures OrderWithin(Keep(r.groups[g], gone), r.groups[g]) {
      KeepOrder(r.groups[g], gone);
    }
  }

  lemma NoneKept(r: Registry, c: nat)
    requires r.Hooked() && c in r.infos
    ensures Keep(r.infos[c].hooks, Members(r, c)) == []
  {
    forall h | h in r.infos[c].hooks ensures h in Members(r, c) {
      assert r.OfCommand(h, c);
    }
    KeepNothing(r.infos[c].hooks, Members(r, c));
  }
}
