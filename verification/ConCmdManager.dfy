/** `ConCmdManager` (core/ConCmdManager.cpp): registering commands, and the two ways they go away. */
module ConCmdManagement {
  import opened Names
  import opened Sequences
  import opened Wrappers
  import opened Commands

  class ConCmdManager {
    var hooks: map<nat, Hook>
    var infos: map<nat, Info>
    var trie: map<string, nat>
    var cmdList: seq<nat>
    var lists: map<nat, seq<nat>>
    var groups: map<string, seq<nat>>
    var nextId: nat

    ghost function R(): Registry
      reads this
    {
      Registry(hooks, infos, trie, cmdList, lists, groups)
    }

    /** Numbers are not used twice. */
    ghost predicate Fresh()
      reads this
    {
      (forall h :: h in hooks ==> h < nextId) && (forall c :: c in infos ==> c < nextId)
    }

    ghost predicate Valid()
      reads this
    {
      R().Inv() && Fresh()
    }

    constructor ()
      ensures Valid() && hooks == map[] && infos == map[]
    {
      hooks, infos, trie, cmdList, lists, groups, nextId := map[], map[], map[], [], map[], map[], 0;
    }

    /** The command of that name, whatever the case; if there is none it is created, or taken over from the
        engine, which knows it as `engineName`. */
    method AddOrFindCommand(name: string, plugin: nat, engineName: Option<string>) returns (c: nat)
      requires Valid() && (engineName.Some? ==> Lower(engineName.value) == Lower(name))
      modifies this`infos, this`trie, this`cmdList, this`nextId
      ensures Fresh() && R().InvBut({c}) && Found(old(R()), R(), c, name, plugin, engineName)
      ensures Ready(R(), c, plugin)
    {
      hide Registry.Hooked, Registry.Owned, Registry.Grouped, Registry.Listed, Registry.Credited, Slot, Inserted;
      ghost var r := R();
      var key := Lower(name);
      if key in trie {
        c := trie[key];
        FoundReady(r, c, plugin);
        return;
      }
      c := Create(name, plugin, engineName);
    }

    /** A command nobody has hooked yet. */
    method Create(name: string, plugin: nat, engineName: Option<string>) returns (c: nat)
      requires Valid() && (engineName.Some? ==> Lower(engineName.value) == Lower(name)) && Lower(name) !in trie
      modifies this`infos, this`trie, this`cmdList, this`nextId
      ensures Fresh() && R().InvBut({c}) && Found(old(R()), R(), c, name, plugin, engineName)
      ensures Ready(R(), c, plugin)
    {
      hide Registry.InvBut, Slot, Inserted, Found, Ready;
      ghost var r := R();
      c := nextId;
      var info := if engineName.Some? then Info(engineName.value, false, None, [])
                  else Info(name, true, Some(plugin), []);
      ListedCommands(r);
      var k := FindSlot(cmdList, infos, info.name);
      Install(c, info, k);
      CreatedInv(r, c, info, k);
      CreatedFound(r, c, info, k, name, plugin, engineName);
    }

    method Install(c: nat, info: Info, k: nat)
      requires Fresh() && c == nextId && k <= |cmdList|
      modifies this`infos, this`trie, this`cmdList, this`nextId
      ensures Fresh() && R() == Created(old(R()), c, info, k)
    {
      nextId, infos, trie := nextId + 1, infos[c := info], trie[Lower(info.name) := c];
      AddToCmdList(c, k);
    }

    method AddToCmdList(c: nat, k: nat)
      requires k <= |cmdList|
      modifies this`cmdList
      ensures cmdList == Inserted(old(cmdList), k, c)
    {
      cmdList := cmdList[..k] + [c] + cmdList[k..];
    }

    /** AddToCmdList: where in the sorted help list a command belongs. */
    method FindSlot(list: seq<nat>, cmds: map<nat, Info>, name: string) returns (k: nat)
      requires forall i :: 0 <= i < |list| ==> list[i] in cmds
      ensures k <= |list| && Slot(list, map c | c in cmds :: cmds[c].name, name, k)
    {
      k := 0;
      while k < |list| && !Less(name, cmds[list[k]].name)
        invariant k <= |list|
        invariant forall i :: 0 <= i < k ==> !Less(name, cmds[list[i]].name)
      {
        k := k + 1;
      }
    }

    /** RegisterInPlugin: where in the plugin's sorted list a hook belongs. */
    method RegisterInPlugin(h: nat, hook: Hook) returns (ghost k: nat)
      requires R().Owned() && R().Hooked() && hook.cmd in infos
      modifies this`lists
      ensures k <= |ListOf(old(lists), hook.plugin)|
      ensures Slot(ListOf(old(lists), hook.plugin), old(R()).HookNames(), infos[hook.cmd].name, k)
      ensures lists == old(lists)[hook.plugin := Inserted(ListOf(old(lists), hook.plugin), k, h)]
    {
      var list := if hook.plugin in lists then lists[hook.plugin] else [];
      if hook.plugin in lists {
        ListedNames(R(), hook.plugin);
      }
      hide Registry.Owned, Registry.Hooked;
      ghost var names := R().HookNames();
      var name, i := infos[hook.cmd].name, 0;
      assert forall j :: 0 <= j < |list| ==> list[j] in list;
      while i < |list| && !Less(name, infos[hooks[list[i]].cmd].name)
        invariant i <= |list|
        invariant forall j :: 0 <= j < i ==> !Less(name, names[list[j]])
      {
        i := i + 1;
      }
      lists := lists[hook.plugin := list[..i] + [h] + list[i..]];
      k := i;
    }

    /** A server command: the hook goes on the command's list and the plugin's. */
    method AddServerCommand(name: string, plugin: nat, engineName: Option<string>)
      returns (h: nat, ghost found: Registry)
      requires Valid() && (engineName.Some? ==> Lower(engineName.value) == Lower(name))
      modifies this
      ensures Valid() && h in hooks && hooks[h] == Hook(true, hooks[h].cmd, plugin, None)
      ensures Found(old(R()), found, hooks[h].cmd, name, plugin, engineName) && found.InvBut({hooks[h].cmd})
      ensures Threaded(found, R(), h, hooks[h])
      ensures hooks[h].cmd in infos && hooks[h].cmd in found.infos
              && infos[hooks[h].cmd].hooks == found.infos[hooks[h].cmd].hooks + [h]
    {
      hide Registry.InvBut, Found, Threaded, Slot;
      var c := AddOrFindCommand(name, plugin, engineName);
      found := R();
      ReadyParts(found, c, plugin);
      h := nextId;
      var hook := Hook(true, c, plugin, None);
      ghost var k := RegisterInPlugin(h, hook);
      infos := infos[c := infos[c].(hooks := infos[c].hooks + [h])];
      hooks, nextId := hooks[h := hook], nextId + 1;
      assert R() == Attached(found, h, hook, k);
      ThreadedInv(found, R(), h, hook, k);
    }

    /** An admin command: the hook goes on its group's list as well, which is created if need be. */
    method AddAdminCommand(name: string, group: string, plugin: nat, engineName: Option<string>)
      returns (h: nat, ghost found: Registry)
      requires Valid() && (engineName.Some? ==> Lower(engineName.value) == Lower(name))
      modifies this
      ensures Valid() && h in hooks && hooks[h] == Hook(false, hooks[h].cmd, plugin, Some(group))
      ensures Found(old(R()), found, hooks[h].cmd, name, plugin, engineName) && found.InvBut({hooks[h].cmd})
      ensures Threaded(found, R(), h, hooks[h])
      ensures hooks[h].cmd in infos && hooks[h].cmd in found.infos
              && infos[hooks[h].cmd].hooks == found.infos[hooks[h].cmd].hooks + [h]
      ensures group in groups && groups[group] == (if group in old(groups) then old(groups)[group] else []) + [h]
    {
      hide Registry.InvBut, Found, Threaded, Slot, Inserted;
      var c := AddOrFindCommand(name, plugin, engineName);
      found := R();
      ReadyParts(found, c, plugin);
      h := nextId;
      var hook := Hook(false, c, plugin, Some(group));
      ghost var k := RegisterInPlugin(h, hook);
      AddToGroup(group, h);
      infos := infos[c := infos[c].(hooks := infos[c].hooks + [h])];
      hooks, nextId := hooks[h := hook], nextId + 1;
      assert R() == Attached(found, h, hook, k);
      ThreadedInv(found, R(), h, hook, k);
    }

    method AddToGroup(group: string, h: nat)
      modifies this`groups
      ensures groups == old(groups)[group := ListOf(old(groups), group) + [h]]
    {
      if group !in groups {
        groups := groups[group := []];
      }
      groups := groups[group := groups[group] + [h]];
    }

    /** A plugin is unloaded: each of its hooks leaves its command and its group; a command left without hooks
        goes, and any other is credited to the plugin whose hook is first now. */
    method OnPluginDestroyed(p: nat)
      requires Valid()
      modifies this
      ensures Valid() && p !in lists
      ensures p in old(lists) ==> R() == Unloaded(old(R()), p)
      ensures p !in old(lists) ==> R() == old(R()) && HooksOf(old(R()), p) == {}
    {
      hide Registry.InvBut, After, HooksOf, Unloaded, Detached, CanDetach;
      ghost var r := R();
      if p !in lists {
        NoList(r, p);
        return;
      }
      var list := lists[p];
      lists := lists - {p};
      ghost var gone := {};
      Intact(r);
      while list != []
        invariant gone <= HooksOf(r, p) && Fresh()
        invariant R() == After(r, gone).(lists := r.lists - {p}) && list == Keep(r.lists[p], gone)
        decreases |list|
      {
        var h := list[0];
        HeadOfList(r, gone, p, h);
        DetachStep(r, gone, h, r.lists - {p});
        Detach(h);
        list := list[1..];
        gone := gone + {h};
      }
      AllGone(r, gone, p);
    }

    /** One hook is deleted. */
    method Detach(h: nat)
      requires CanDetach(R(), h) && Fresh()
      modifies this`hooks, this`infos, this`trie, this`cmdList, this`groups
      ensures R() == Detached(old(R()), h) && Fresh()
    {
      var c := hooks[h].cmd;
      var info := infos[c].(hooks := Without(infos[c].hooks, h));
      if hooks[h].group.Some? {
        var g := hooks[h].group.value;
        groups := groups[g := Without(groups[g], h)];
      }
      if info.hooks == [] {
        RemoveConCmd(c, Lower(info.name));
      } else {
        infos := infos[c := info.(owner := Some(hooks[info.hooks[0]].plugin))];
      }
      hooks := hooks - {h};
    }

    method RemoveConCmd(c: nat, key: string)
      modifies this`infos, this`trie, this`cmdList
      ensures trie == old(trie) - {key} && cmdList == Without(old(cmdList), c) && infos == old(infos) - {c}
    {
      trie := trie - {key};
      cmdList := Without(cmdList, c);
      infos := infos - {c};
    }

    /** The engine drops a command: each of its hooks leaves its plugin and its group, and the command goes. */
    method OnUnlinkConCommandBase(name: string)
      requires Valid()
      modifies this
      ensures Valid()
      ensures Lower(name) in old(trie) ==> R() == After(old(R()), Members(old(R()), old(trie)[Lower(name)]))
      ensures Lower(name) !in old(trie) ==> R() == old(R())
    {
      hide Registry.InvBut, After, Loose, Members, CanUnlink, UnlinkedHook;
      ghost var r := R();
      var key := Lower(name);
      if key !in trie {
        return;
      }
      var c := trie[key];
      CommandThere(r, key);
      var list := infos[c].hooks;
      ghost var gone := {};
      Intact(r);
      while list != []
        invariant gone <= Members(r, c) && Fresh()
        invariant list == Keep(r.infos[c].hooks, gone)
        invariant R() == Loose(r, gone)
        decreases |list|
      {
        var h := list[0];
        NextMember(r, gone, c, h);
        UnlinkHook(h);
        list := list[1..];
        gone := gone + {h};
      }
      Unlinked(r, gone, c, key);
      RemoveConCmd(c, key);
    }

    /** One hook of a command that is going is deleted. */
    method UnlinkHook(h: nat)
      requires CanUnlink(R(), h) && Fresh()
      modifies this`hooks, this`lists, this`groups
      ensures R() == UnlinkedHook(old(R()), h) && Fresh()
    {
      var p := hooks[h].plugin;
      var k := Find(lists[p], h);
      lists := lists[p := lists[p][..k] + lists[p][k + 1..]];
      if hooks[h].group.Some? {
        var g := hooks[h].group.value;
        groups := groups[g := Without(groups[g], h)];
      }
      hooks := hooks - {h};
    }

    method Find(list: seq<nat>, h: nat) returns (k: nat)
      requires h in list && NoDup(list)
      ensures k < |list| && list[k] == h && list[..k] + list[k + 1..] == Without(list, h)
    {
      k := 0;
      while list[k] != h
        invariant k < |list| && h in list[k..]
        decreases |list| - k
      {
        assert list[k..] == [list[k]] + list[k + 1..];
        k := k + 1;
      }
      WithoutAt(list, k);
    }
  }
}
