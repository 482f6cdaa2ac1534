# SourceMod core: a verified model

SourceMod's `core/` holds several state machines that have to stay consistent while plugin code, called from the
middle of them, calls back into the same code. This project models them in Dafny and proves what they keep.

| modules | what they model |
|---|---|
| `Timers`, `TimerWalks`, `TimerClock`, `TimerSystem`, `TimerLaws` | the timer scheduler: three lists and a recycling stack, walked while callbacks create, kill and fire timers |
| `MenuPaging`, `MenuLayout`, `MenuRender` | the paginator: which items a page shows, where Next and Back lead, and which key gets which button |
| `MenuWorld`, `VoteTally`, `MenuSystem`, `MenuLaws`, `MenuRuns` | the menu and vote protocol: one menu a client, the watch list, and votes counted by open menus; and runs of it from a fresh server, two of which go wrong |
| `FastLink` | the array-backed linked list with a free stack laid over it |
| `Commands`, `ConCmdManager` | the command registry: each hook is on three lists, and two events remove many at once |
| `ConfigText`, `ConfigLaws`, `CoreConfig` | auto-generated configs: parse, check, and write again; and what lines anybody may have written read as |
| `AuthQueue` | the authorisation queue, an array zeroed and compacted in place |
| `PrintQueue` | the console print queue and the frame action queues that keep it moving |
| `UserIds` | the user id cache against a scan of the players |
| `UserMessages` | listener lists edited by their own listeners, and the count that installs the engine hooks |
| `HudChannels` | the HUD channel allocator |
| `PropLookup` | property search over nested tables, dotted paths, and the caches in front of it |
| `Sequences`, `Names`, `Wrappers` | order and duplicates in sequences, case folding, and `Option` |

Plugin code is data. A callback's behaviour is a finite tree of the API calls it makes, each carrying what the
callbacks that call triggers do in turn (`Timers.Script`, `MenuProtocol.Script`, `UserMessageHooks.Step`). The methods
run such trees, so a contract that holds for every tree holds for every plugin that terminates. Answers of the engine
(is there a channel, is the client in game, is there a page to show) are inputs as well. Objects are numbers: a timer,
a menu or a listener is an index into a table, as a pointer would be an address.

The invariants are stated over immutable snapshots (`Timers.State`, `MenuWorlds.World`, `Commands.Registry`), the
methods of the classes are proved against functions of those snapshots, and the laws are lemmas about them.

## Model

| member | source | states |
|---|---|---|
| TimerLaws.ExactlyOneContainer | core/TimerSys.cpp:253-454 | under the invariant every scheduler method keeps, each timer ever allocated is in the one-shot list, one of the repeating lists or the free stack, counted exactly once over all four |
| TimerLaws.EndedExactlyWhenGone | core/TimerSys.cpp:363-429 | with no timer on the call stack, a creation is pending exactly as long as it has not had its OnTimerEnd, and it never has two |
| TimerLaws.RearmBound | core/TimerSys.cpp:147-158 | one re-arm lands between 0.1 s ago and one interval on: on the next slot exactly when that is at most 0.1 s past, and one interval from now exactly otherwise (or if the two agree) |
| TimerLaws.NoDrift | core/TimerSys.cpp:147-158 | over any run of frames a repeater that follows them (RunFrames) is due, after each one, at the slot its firings have brought it to, if and only if no firing comes more than 0.1 s past its following slot |
| TimerLaws.NoDriftExample | core/TimerSys.cpp:147-158 | a one-second repeater first looked at 1.2 s late starts a new grid |
| TimerLaws.SlotIs | core/TimerSys.cpp:147-158 | slot k is the first due time plus k intervals |
| TimerLaws.SteadyFramesKeepTheGrid | core/TimerSys.cpp:253-277 | a repeater that its frames look at once an interval, and that starts no more than 0.1 s behind, keeps its grid however many frames are run |
| TimerScheduling.TimerSystem.CreateTimer | core/TimerSys.cpp:320-365 | recycles the object freed last or makes one; it is due an interval from now; a one-shot goes where the list stays in order of due time, a repeater at the end of the list of its precision; nothing else moves |
| TimerScheduling.TimerSystem.FindSpot | core/TimerSys.cpp:332-360 | the place found has nothing due later before it and nothing due earlier behind it |
| TimerScheduling.TimerSystem.KillTimer | core/TimerSys.cpp:404-429 | on a timer that is executing it only postpones, on one already to be killed or freed and not recycled it changes nothing, and otherwise the timer gets OnTimerEnd and is freed, whatever OnTimerEnd does |
| TimerScheduling.TimerSystem.FireTimerOnce | core/TimerSys.cpp:367-402 | a timer that is executing or freed is left alone; any other is ended if it is a one-shot or was told to stop, and else keeps its due time or, if asked, gets one an interval from now |
| TimerScheduling.TimerSystem.Run | core/TimerSys.cpp:320-429 | any plugin code keeps the invariant, the timers on the call stack, the order of what was in the lists, and moves a due time only by a delayed FireTimerOnce; every timer it creates is there |
| TimerScheduling.TimerSystem.Finish | core/TimerSys.cpp:286-306 | OnTimerEnd and erasing leave the walk standing at the element after the one erased, with what stood left of it still left of it |
| TimerScheduling.TimerSystem.RunSingles | core/TimerSys.cpp:283-307 | stopping at the first one-shot not due misses none that was pending; every call made was due, in order of due time, once each; with idle callbacks the calls are exactly the due ones, and off think frames the tick-precise ones |
| TimerScheduling.TimerSystem.ProcessRepeatTimers | core/TimerSys.cpp:253-277 | each repeater of this list still pending has fired once or was not due when reached; one that fired is next due where the re-arm rule says, counted from when it was due at the start, and one that did not keeps its due time; either may be an interval from now instead, only if there has been a delayed FireTimerOnce |
| TimerScheduling.TimerSystem.FireRepeat | core/TimerSys.cpp:257-276 | one repeater: ended if told to stop or killed meanwhile, else re-armed, with the walk left standing behind it |
| TimerScheduling.TimerSystem.RunFrame | core/TimerSys.cpp:279-318 | all three walks together, against the state at the start of the frame: without a delayed FireTimerOnce every repeater that lives on fired once if it was its turn and due, and not otherwise; with idle callbacks all live on |
| TimerScheduling.TimerSystem.GameFrame | core/TimerSys.cpp:218-251 | the clock moves by the engine's time since the last frame if the map simulates and has ticked, and by one tick otherwise; when the next think is; every call the walks record was made, and the creations of the callbacks with it; every repeater that fired and lives on is due within [now - 0.1, now + interval]; and if time does not run backwards a pending one-shot created before the frame is less than 0.1 s late, a tick-precise one not at all |
| TimerScheduling.TimerSystem.RunFrames | core/TimerSys.cpp:218-277 | over any run of simulating frames on a map that has ticked the clock has moved by the last frame's engine time less the one before the run; as long as no callback makes a delayed FireTimerOnce, every repeater of positive interval still there is due when the clocks of the frames make it due, whatever else callbacks do; with idle callbacks all live on; and no one-shot comes to be late |
| TimerClock.SimulatedTime | core/TimerSys.cpp:218-251 | over a run of simulating frames the clock moves as the engine's does, however many frames there are; the first frame of a map counts one tick |
| TimerClock.IdleTime | core/TimerSys.cpp:218-251 | while nothing simulates it moves a tick a frame |
| TimerClock.FrameFollows | core/TimerSys.cpp:253-318 | why one frame moves a repeater by the re-arm rule alone |
| TimerClock.OnTimeRuns | core/TimerSys.cpp:320-365 | plugin code between frames makes no one-shot late |
| TimerClock.OnTimeFrame | core/TimerSys.cpp:218-318 | why a frame makes none late: the next think is at most 0.1 s away, and whatever is due by then has been dealt with |
| TimerScheduling.TimerSystem.RemoveMapChangeTimers | core/TimerSys.cpp:432-454 | whatever OnTimerEnd does, every timer flagged for the map change that was alive at the start has ended; and if it does nothing, every other is untouched |
| MenuPaging.DrawablesComplete | core/MenuManager.cpp:217-234 | no drawable item is missing from the list the pages are cut from |
| MenuPaging.NextTurnsPage | core/MenuManager.cpp:278-460 | Next from page k shows page k + 1 of the partition |
| MenuPaging.BackTurnsPage | core/MenuManager.cpp:291-303 | Back from page k shows page k - 1, by the descending search and by its shortcut to the start alike |
| MenuPaging.BrowsingFollowsPages | core/MenuManager.cpp:278-460 | any run of Next and Back stays on the pages, one page a key, never past either end |
| MenuPaging.PagesPartition | core/MenuManager.cpp:278-382 | the pages laid end to end are the drawable items, in order, each once |
| MenuPaging.DisplayStartsOnPageZero | core/MenuManager.cpp:278-290 | a menu displayed from its first item shows page 0, and nothing exactly when no item can be drawn |
| MenuPaging.PreviousMissing | core/MenuManager.cpp:439-458 | from an arbitrary start, Previous is missing although an earlier item is drawable exactly when item 0 is the only such item |
| MenuPaging.PreviousMissingExample | core/MenuManager.cpp:439-458 | the smallest such menu: two items, displayed from the second |
| MenuRendering.SearchItems | core/MenuManager.cpp:329-382 | either search finds exactly the first page of drawable items on its side, in the order met, and with pagination tells whether there is another and which; its ten places are never exceeded |
| MenuRendering.FindAfter | core/MenuManager.cpp:416-435 | finds the first drawable item after the page |
| MenuRendering.FindBefore | core/MenuManager.cpp:437-458 | finds the last drawable item before the page, item 0 excepted |
| MenuRendering.RadioPanel.DrawItem | core/MenuStyle_Radio.cpp:386-424 | which entries take a position, and which of those the client may press |
| MenuRendering.RenderMenu | core/MenuManager.cpp:236-714 | the whole rendering. Paged, a page has room for as many items as the pagination says, less the No Vote button, and otherwise for as many as the panel has keys, less No Vote and Exit; nothing is drawn exactly when that is less than two or no item on that side can be drawn; else the page is the first unbroken stretch of drawable items there, as long as there is room, with its items on consecutive keys; the search positions, every slot and the keys advertised follow in closed form |
| MenuRendering.RenderedShows | core/MenuManager.cpp:258-382 | the two searches, by which pages are told apart, show the page of that size |
| MenuRendering.ButtonsLead | core/MenuManager.cpp:405-460 | with pagination Next is offered exactly if a drawable item is left behind the page, and Previous if one is left before it, item 0 aside |
| MenuPaging.DrawableIs | core/MenuManager.cpp:217-234 | what is never drawn as an item: raw lines and disabled controls |
| MenuLayout.WhatKeysDo | core/MenuManager.cpp:534-707 | what each key does when the panel does not overflow: items from the first key on, Back and Next and Exit on the last three, a No Vote button moving all but Exit by one; and no other key does anything |
| MenuLayout.WhatIsAdvertised | core/MenuManager.cpp:534-707 | the keys advertised are exactly those of items that can be chosen, of No Vote and of the controls the panel had room for |
| MenuLayout.KeysServed | core/MenuManager.cpp:534-707 | every key the panel advertises is one the server acts on, if and only if the menu does not have both a No Vote and an Exit button |
| MenuLayout.KeysServedExample | core/MenuManager.cpp:534-707 | one item between a No Vote and an Exit button: both its keys are advertised, and dead |
| MenuLayout.ControlsOnLastKeys | core/MenuManager.cpp:600-690 | without a No Vote button Previous or Back, Next and Exit are on the last three keys, and no other key has one |
| FastLinks.FastLink.PushBack | core/sm_fastlink.h:55-76 | appends, and fails exactly when the list is full |
| FastLinks.FastLink.GetFreeIndex | core/sm_fastlink.h:82-97 | pops the index freed last, or takes the next never used; 0 exactly when all are live |
| FastLinks.FastLink.Erase | core/sm_fastlink.h:157-202 | drops the element at the iterator and returns the iterator on its successor, for head, tail, middle and only node |
| FastLinks.FastLink.Remove | core/sm_fastlink.h:146-156 | removes the first element equal to the argument, if any |
| FastLinks.FastLink.Advance | core/sm_fastlink.h:125-129 | the iterator visits the elements in order |
| FastLinks.SlotsPartition | core/sm_fastlink.h:49-97 | the live chain and the free stack are together a permutation of 1 to the highest index used |
| MenuProtocol.MenuSystem.constructor | core/MenuStyle_Base.cpp:44-46 | a fresh system is in order, so every run of events has a start |
| MenuProtocol.MenuSystem.Run | core/MenuStyle_Base.cpp:75-610 | any plugin code, however it nests, the dropping of players included, keeps the sessions, the watch list, the tally and the ballots, and does not disturb what is further down the call stack; every call it makes is made, and a single one has the effect it is for (`Did`) |
| MenuProtocol.MenuSystem.DoClientMenu | core/MenuStyle_Base.cpp:474-572 | it succeeds only for a client that is one, takes displays and is in game; and for such a client, if OnMenuStart does nothing, exactly when there is a page to show, whatever the client has open already and whatever else the callbacks do; the session started is then open at the client, and whenever it fails it is over |
| MenuProtocol.MenuSystem.DoClientPanel | core/MenuStyle_Base.cpp:415-472 | a panel is shown, in place of what the client had open, exactly when the client is one, is in game and takes displays; else nothing changes |
| MenuProtocol.MenuSystem.CancelClient | core/MenuStyle_Base.cpp:75-116 | the first thing heard is the cancel of what the client had open; its session is over; a client told to ignore displays has nothing open afterwards, and one that is not has nothing whose time is up |
| MenuProtocol.MenuSystem.MenuCancel | core/MenuStyle_Base.cpp:805-826 | afterwards no client has the menu, whatever callbacks try to display meanwhile |
| MenuProtocol.MenuSystem.Display | core/MenuStyle_Base.cpp:474-572 | refused without effect while the menu is being cancelled, and else as DoClientMenu |
| MenuProtocol.MenuSystem.ProcessWatchList | core/MenuStyle_Base.cpp:212-270 | no menu whose time is up survives, although callbacks open and close menus during the walk; and if callbacks do nothing a menu is open afterwards exactly if it was and its time is not up |
| MenuProtocol.MenuSystem.OnClientDisconnected | core/MenuStyle_Base.cpp:194-209 | also from inside a callback, a client who leaves has nothing open afterwards, its handler heard of the cancel, and its session is over |
| MenuProtocol.MenuSystem.StyleDisconnect | core/MenuStyle_Base.cpp:194-209 | a client who leaves has nothing open, its handler heard of the cancel first of all, and its session is over |
| MenuProtocol.MenuSystem.OnUserMessageSent | core/MenuStyle_Radio.cpp:204-222 | another program's menu closes the client's, whose handler hears of the cancel, and its display time is the client's |
| MenuProtocol.MenuSystem.DrawItems | core/MenuManager.cpp:329-530 | the drawing callbacks, any number of them, each one thing a plugin may do and each heard: the vote handler is left with nobody to pass one to only when the vote is over, and how many are made follows from the answers |
| MenuProtocol.MenuSystem.RedoClientMenu | core/MenuStyle_Base.cpp:574-610 | a page drawn again while displays are ignored: what goes wrong is told by the state after the last drawing callback and by whether another is due, both ways |
| MenuProtocol.MenuSystem.ClientPressedKey | core/MenuStyle_Base.cpp:272-413 | the session of the key press is selected from exactly when the press picks an item of an open menu: the handler first hears OnMenuSelect with that item, a ballot being counted by then for that client and that item alone, and nothing otherwise; and if the callbacks do nothing and it was the last open vote menu, what is heard third is how that count came out. Leaving is first heard as OnMenuCancel, a panel's key as its select, and without a menu nothing happens. The session goes on or is over; a second OnMenuEnd, or a callback with nobody to take it, is exactly one of two states after the drawing callbacks; neither happens if no menu was asked to be closed while drawing; both do for the callbacks named; and the sessions ended again are exactly those of such key presses |
| MenuProtocol.MenuSystem.EndAgain | core/MenuStyle_Base.cpp:388-412 | the second OnMenuCancel and OnMenuEnd to a plugin, recorded as such: what is over stays over, and everything is in order afterwards |
| MenuRuns.StartsAndEnds | core/MenuStyle_Base.cpp:75-610 | from a fresh server, over any run of events that the vote handler survives, each session is answered and ended equally often: never while it is open, and then once, or twice if it is one of those ended again; and if no plugin closes menus from the callbacks of a key press, the run is survived and none is ended again |
| MenuRuns.EndedTwice | core/MenuStyle_Base.cpp:340-412 | a run from a fresh server in which one session is answered twice and ended twice |
| MenuRuns.OrphanedVote | core/MenuVoting.cpp:519-533 | a run from a fresh server in which the vote handler has a drawing callback to pass on and nobody to pass it to |
| MenuProtocol.MenuSystem.Select | core/MenuStyle_Base.cpp:385-412 | the handler hears OnMenuSelect of that session and item with the menu closed, the ballot counted and the choice recorded, the session is recorded as selected from, and ends |
| MenuProtocol.MenuSystem.Play | core/MenuStyle_Base.cpp:194-413 | any run of key presses, disconnects, clock ticks and plugin code leaves everything in order as long as no key press goes wrong in the vote handler's hands; none does, and no menu is ended a second time, if no plugin closes menus from the callbacks of a key press; and every call of the plugin code is made |
| MenuProtocol.MenuSystem.Happen | core/MenuStyle_Base.cpp:194-413 | what one event does: a pick selects, a leave ends the session, a player who left has nothing open and is out of the pool, nothing is late once time has passed |
| MenuProtocol.MenuSystem.BeginVote | core/MenuVoting.cpp:191-235 | accepted exactly when no vote is on, and else nothing changes; OnVoteMenuStart is heard first; unless the menu is being cancelled, each number named from 1 to 256, and no other, is given a session of its own, later than those before it, which by the end is open at that client or over; OnMenuVoteStart is heard; the revote rule, the menu and the item count are the ones given as long as this vote is on; and the vote is on afterwards when its one client is shown it |
| MenuProtocol.MenuSystem.StartVoting | core/MenuVoting.cpp:358-387 | a vote nobody was shown is over when it returns, and one that somebody was shown goes on unless a callback ends it |
| MenuProtocol.MenuSystem.RedrawToClient | core/MenuVoting.cpp:262-307 | refused without effect exactly outside the pool or for a choice that may not be changed; else the choice no longer counts and a menu is started again, shown afresh or over |
| MenuProtocol.MenuSystem.CancelVote | core/MenuVoting.cpp:623-631 | afterwards nobody has the vote menu open, and one more vote has been cancelled; every operation keeps that as many votes have been reported as cancelled as have been cancelled, but for one still on (`Voids`) |
| MenuProtocol.MenuSystem.VoteDisconnect | core/MenuVoting.cpp:157-184 | a client who leaves takes its choice out of the totals and leaves the pool |
| MenuProtocol.MenuSystem.DecrementPlayerCount | core/MenuVoting.cpp:389-399 | never underflows, and ends the vote with the last open menu |
| MenuProtocol.MenuSystem.EndVoting | core/MenuVoting.cpp:407-502 | one outcome, the tabulation of the votes as they stood, is the first thing heard, and OnMenuEnd of the vote is heard after it, with the handler reset before anybody hears, so callbacks may start another vote |
| MenuLaws.EachStartEndsOnce | core/MenuStyle_Base.cpp:75-610 | between events a session is open and unanswered at one client, or over, after one OnMenuCancel or OnMenuSelect and one OnMenuEnd, or after two of each, which is so exactly for those recorded as ended again |
| MenuLaws.ClientsAreOpenVotes | core/MenuVoting.cpp:389-399 | m_Clients is the number of clients with an open vote menu |
| MenuLaws.NoVoteNoMenus | core/MenuVoting.cpp:504-512 | while no vote is on nobody has a vote menu open |
| MenuLaws.EachVoteEndsOnce | core/MenuVoting.cpp:407-502 | every vote accepted has been decided once and has had its OnMenuEnd once, or is the one that is on |
| MenuLaws.BallotsAddUp | core/MenuVoting.cpp:519-543 | each item's total is the number of clients who chose it, and the totals add up to the number who chose |
| MenuLaws.WatchListFits | core/MenuStyle_Base.cpp:59-73 | the watch list never outgrows its 256 nodes |
| VoteTallies.Tabulate | core/MenuVoting.cpp:428-502 | cancelled, no votes, or the results: exactly the items with votes, once each, descending; exactly the clients in the pool; and the number of choices |
| VoteTallies.TotalsAreChoosers | core/MenuVoting.cpp:443-456 | the item totals add up to the number of clients holding a choice |
| VoteTallies.PoolIs | core/MenuVoting.cpp:473-484 | a client is reported with its own choice if and only if it is in the pool |
| Commands.UnloadLeavesTheRest | core/ConCmdManager.cpp:109-137 | after a plugin goes none of its hooks is left on any list, the rest stand in their order, and a command is gone exactly when no other plugin hooked it |
| Commands.UnlinkLeavesTheRest | core/ConCmdManager.cpp:71-107 | after the engine drops a command exactly it and its hooks are gone from every list |
| Commands.RegisterUndone | core/ConCmdManager.cpp:319-414 | deleting the hook just registered takes hooks, commands, lookup table and lists back to what they were |
| Commands.FirstDifference | core/ConCmdManager.cpp:387-444 | the lists are in strcmp order: two names compare as the first characters in which they differ, and a proper prefix is the lesser |
| ConCmdManagement.ConCmdManager.AddOrFindCommand | core/ConCmdManager.cpp:539-580 | finds the command of that name, whatever its case, or makes one with the engine's or the plugin's name |
| ConCmdManagement.ConCmdManager.FindSlot | core/ConCmdManager.cpp:416-444 | the place that keeps the help list sorted |
| ConCmdManagement.ConCmdManager.RegisterInPlugin | core/ConCmdManager.cpp:387-414 | the place that keeps the plugin's list sorted |
| ConCmdManagement.ConCmdManager.AddServerCommand | core/ConCmdManager.cpp:368-385 | the new hook is last on its command's list and in order on its plugin's, and the registry stays consistent |
| ConCmdManagement.ConCmdManager.AddAdminCommand | core/ConCmdManager.cpp:319-366 | and last on its group's |
| ConCmdManagement.ConCmdManager.OnPluginDestroyed | core/ConCmdManager.cpp:109-137 | the loop over the plugin's list leaves the registry without that plugin's hooks |
| ConCmdManagement.ConCmdManager.OnUnlinkConCommandBase | core/ConCmdManager.cpp:71-107 | the loop over the command's list leaves the registry without that command |
| ConfigText.PrintThenParse | core/CoreConfig.cpp:319-393 | reading a printed setting gives the name, and the value without what is stripped at its end |
| ConfigText.RoundTripIff | core/CoreConfig.cpp:360-385 | a printed value comes back if and only if it does not end in a blank, a line break or a quote |
| ConfigText.RoundTripExample | core/CoreConfig.cpp:360-385 | a value with a blank at its end comes back without it |
| ConfigText.ParseReadBack | core/CoreConfig.cpp:319-393 | every value the parser produces is one that comes back |
| ConfigText.GenerateThenParse | core/CoreConfig.cpp:476-595 | reading a generated file gives exactly the recorded variables, with the values printed |
| ConfigText.GeneratedIsCurrent | core/CoreConfig.cpp:423-467 | a file just generated needs no regeneration |
| ConfigText.RegenerationKeepsValues | core/CoreConfig.cpp:506-571 | a variable still recorded keeps the value the old file had for it |
| ConfigText.RegenerationSettles | core/CoreConfig.cpp:476-595 | whatever was there before, from the second time on regenerating writes the same file again |
| ConfigLaws.LineReads | core/CoreConfig.cpp:327-391 | a line anybody may have written, a name, blanks and a value with or without a quote in front, reads as that name and value; trailing blanks, quotes and line ends are not part of it |
| ConfigLaws.NameAloneReads | core/CoreConfig.cpp:327-391 | a name alone reads as that name with an empty value |
| ConfigLaws.NothingRead | core/CoreConfig.cpp:327-345 | empty lines and comments define nothing |
| ConfigLaws.LongNameCut | core/CoreConfig.cpp:346-362 | a name is cut after 255 characters, and what follows is its value |
| ConfigLaws.LongLineCut | core/CoreConfig.cpp:319-327 | a line longer than the buffer is read in pieces of 4095 characters |
| ConfigLaws.FirstStands | core/CoreConfig.cpp:359-391 | a name is defined exactly if some line defines it, and the first line that does gives its value |
| ConfigLaws.SameName | core/CoreConfig.cpp:395-420 | names are one setting exactly if they differ at most in the case of their letters |
| ConfigLaws.WhatIsWritten | core/CoreConfig.cpp:511-570 | what is written for a variable, line by line: help text cut to 254 characters, default, bounds, and the setting with the file's old value or else the default; nothing for one not recorded |
| ConfigLaws.HelpIsThere | core/CoreConfig.cpp:522-544 | the comment lines, without their signs, are the help text |
| ConfigLaws.InOrder | core/CoreConfig.cpp:511-570 | the variables come in their order |
| CoreConfigs.ParseConfig | core/CoreConfig.cpp:319-393 | the buffer loop computes the parse: chunks of 4095 characters, first definition of a name wins |
| CoreConfigs.ReadLine | core/CoreConfig.cpp:327-390 | the pointer walk over a line computes its setting |
| CoreConfigs.CheckRegeneration | core/CoreConfig.cpp:423-467 | regeneration is asked for if and only if file and plugin do not name the same variables |
| CoreConfigs.GenerateConfigFile | core/CoreConfig.cpp:476-595 | the prints add up to the file's lines |
| CoreConfigs.ExecuteConfig | core/CoreConfig.cpp:597-737 | a file is executed if there is one at all; without permission to write, or to replace what is there, nothing changes; with it, what comes out needs no regeneration, is the old file if that could be read and needs none, and has every default if there was none or it could not be read; values are lost if and only if the file cannot be read, can be replaced, and holds one that is not its variable's default |
| CoreConfigs.ValueReplaced | core/CoreConfig.cpp:428-433 | a config that sets a variable to 1 and cannot be opened comes out setting it to 0 |
| AuthQueues.AuthQueue.RunAuthChecks | core/PlayerManager.cpp:422-508 | the array that is left is exactly what one walk leaves (Pass), in which listeners may drop queued clients and shift the array under the walk; it holds, in order and once each, exactly those queued who still wait; and who was ready is among them exactly if it was passed over (Skipped) |
| AuthQueues.NobodyPassedOver | core/PlayerManager.cpp:422-508 | if authorising a client drops nobody who stands ahead of it, nobody who is ready is left |
| AuthQueues.HowManyPassedOver | core/PlayerManager.cpp:1543-1553 | a step passes over exactly as many of the clients that follow as it drops ahead |
| AuthQueues.PassedOverIff | core/PlayerManager.cpp:422-508 | over a whole pass: a ready client is left in the queue if and only if some step moves it past the walk, being among as many of those that follow as that step drops ahead, and no later step drops it |
| AuthQueues.ReadyPassedOver | core/PlayerManager.cpp:427-508 | three clients of whom the last is ready and not looked at |
| AuthQueues.AuthQueue.InvalidatePlayer | core/PlayerManager.cpp:1535-1565 | a client who goes leaves the queue, order kept, marks untouched |
| AuthQueues.AuthQueue.Compact | core/PlayerManager.cpp:478-507 | the in-place compaction leaves exactly the entries not marked |
| AuthQueues.AuthQueue.OnClientConnect | core/PlayerManager.cpp:521-605 | the queue afterwards, exactly: without those dropped meanwhile, and an accepted human last; every other client's record as before; and it holds only waiting clients if and only if not a client was both accepted and dropped while the listeners decided |
| AuthQueues.AuthQueue.KickedWhileConnecting | core/PlayerManager.cpp:575-592 | the smallest failing case: the queue then holds a client that is gone |
| PrintQueues.HeadFits | core/PlayerManager.cpp:921-925 | a message let into the queue fits an empty channel, and no other does: one of at most 2045 characters |
| PrintQueues.WhatOverflows | core/PlayerManager.cpp:921-971 | a message overflows exactly when the bits written, 5 bits for its type and its characters come to more than 2046 bytes |
| PrintQueues.NothingLostIff | core/PlayerManager.cpp:940-981 | all a connection's messages have reached the engine in order or are buffered, if and only if no flush of it has found the channel missing |
| PrintQueues.PrintQueue.LostWithoutChannel | core/PlayerManager.cpp:948-955 | a run that loses a message: held back by a full channel, and flushed when there is none |
| PrintQueues.DeliveredIff | core/PlayerManager.cpp:940-981 | what the engine was given is all that left the queue exactly when nothing was thrown away |
| PrintQueues.PrintQueue.OnClientPrintf | core/PlayerManager.cpp:901-938 | a message of legal length, with a channel, is held exactly when one is held before it or the channel is full, and else sent; it never overtakes one |
| PrintQueues.PrintQueue.OnPrintfFrameAction | core/PlayerManager.cpp:940-981 | a prefix of the buffer is sent and the rest kept with one action pending, stopping only at a message that does not fit; without a channel the whole buffer is lost, and is recorded as lost |
| PrintQueues.PrintQueue.RunFrameHooks | core/frame_hooks.cpp:75-95 | everything queued runs once, in order, and what is added meanwhile waits; every connection that lasts has records that only grow, loses nothing while its channel is there, and if it had something buffered and channels are empty when asked, has had something leave the queue |
| PrintQueues.PrintQueue.GetClientFromSerial | core/PlayerManager.cpp:1986-2006 | finds the one connected client of that serial, and 0 when there is none |
| PrintQueues.PrintQueue.Connect | core/PlayerManager.cpp:2105-2125 | a connection begins with an empty record and a serial nothing in the queues refers to |
| UserIds.UserIdCache.GetClientOfUserId | core/PlayerManager.cpp:1417-1460 | whatever the cache holds, the answer is a client with that id, 0 exactly when there is none, and the scan's answer if ids are distinct |
| UserIds.UserIdCache.Invalidate | core/PlayerManager.cpp:1535-1565 | the client is gone and its id forgotten, and nobody else's |
| UserMessageHooks.UserMessages.InternalHook | core/UserMessages.cpp:402-445 | a listener joins the end of its list, and the engine is hooked exactly while there are any |
| UserMessageHooks.ListsApart | core/UserMessages.cpp:402-445 | a message and a kind of listener have a list to themselves |
| UserMessageHooks.UserMessages.InstalledWhileListening | core/UserMessages.cpp:424-520 | the engine is hooked exactly while some list has a listener |
| UserMessageHooks.UserMessages.InternalUnhook | core/UserMessages.cpp:463-498 | succeeds exactly if a listener matches; the first that does goes, at once or, while it is being called, when that returns |
| UserMessageHooks.UserMessages.CallListener | core/UserMessages.cpp:705-769 | a listener is called once, what it registers is registered, and the walk goes on behind it; one that unhooks itself is off its list when the call returns and the walk stands at its successor |
| UserMessageHooks.UserMessages.WalkIntercepts | core/UserMessages.cpp:705-769 | every listener still there has been called once, in order of registration, unless one stopped the message; no mark is left |
| UserMessageHooks.UserMessages.WalkHooks | core/UserMessages.cpp:803-820 | likewise for those that only look |
| UserMessageHooks.UserMessages.OnMessageEndPre | core/UserMessages.cpp:705-831 | when the message goes out, is superseded or is blocked, that what the listeners called register is registered, and that no listener is left marked |
| HudChannels.OneChannelEach | core/smn_hudtext.cpp:217-247 | no object has two channels |
| HudChannels.KeepsItsChannel | core/smn_hudtext.cpp:198-247 | an object keeps its channel through another's use if and only if the other has one or its own is not the oldest |
| HudChannels.OnlyTheOldestIsEvicted | core/smn_hudtext.cpp:234-246 | whoever loses a channel had used it no later than any other, and nobody else loses one |
| HudChannels.SixNeverEvict | core/smn_hudtext.cpp:138-247 | up to six objects, over any run of uses, each have a channel of their own |
| HudChannels.ChannelIsForGood | core/smn_hudtext.cpp:198-247 | and the channel each got first is the one it keeps |
| HudChannels.TimesAreLastUses | core/smn_hudtext.cpp:198-247 | over any run of uses the time of a channel is that of its owner's last use, and of one never used that of the connection |
| HudChannels.LeastRecentLoses | core/smn_hudtext.cpp:217-247 | whoever loses a channel was last used no later than anybody who has one |
| HudChannels.HudHelpers.OnClientConnected | core/smn_hudtext.cpp:138-145 | a client who connects has all channels free, though objects remember theirs |
| HudChannels.HudHelpers.AutoSelectFor | core/smn_hudtext.cpp:217-247 | the minimum search and the three writes amount to one use; the object has the channel, stamped with the time, and remembers it |
| HudChannels.HudHelpers.TryReuse | core/smn_hudtext.cpp:198-215 | answers exactly when the object still owns its last channel, and else changes nothing |
| HudChannels.HudHelpers.ManualSelect | core/smn_hudtext.cpp:249-258 | the channel is nobody's afterwards |
| HudChannels.HudHelpers.AutoSelect | core/smn_hudtext.cpp:177-196 | takes the first channel used longest ago |
| PropLookup.FindIsFirstMatch | core/HalfLife2.cpp:337-388 | the answer is the first match depth first, its offset the sum along its path; or there is none at any path |
| PropLookup.EarlierTotal | core/HalfLife2.cpp:337-388 | of two different paths one comes earlier, so a first match is the only one |
| PropLookup.PathComposes | core/HalfLife2.cpp:422-468 | a dotted path is found exactly when it runs through the first property each component names, and is found there, the offsets added up; and else leads nowhere |
| PropLookup.SplitJoined | core/HalfLife2.cpp:422-468 | the components are what stands between the dots: joined by dots they are the name again, and none has a dot |
| PropLookup.FreshAnswers | core/HalfLife2.cpp:528-560 | what a search without the cache finds: the first property of that name; failing that, for a dotted name, where its components lead; and nothing exactly when neither exists |
| PropLookup.FieldPathComposes | core/HalfLife2.cpp:422-468 | a dotted path into a data map likewise |
| PropLookup.FreshFieldAnswers | core/HalfLife2.cpp:586-616 | and what a search of a data map finds |
| PropLookup.FindInTablePath | core/HalfLife2.cpp:422-468 | the loop over components computes the composed search, for either kind of table |
| PropLookup.SearchDataMap | core/HalfLife2.cpp:390-419 | the recursive search finds the first named field in order: a field, what is in it, the next, then the base map |
| PropLookup.DataMapIsFirstMatch | core/HalfLife2.cpp:390-419 | the answer is the first match: a field before what is in it, that before the next field, and the base map last, the offset the sum along its path; or there is none at any path |
| PropLookup.PropCache.FindSendPropInfo | core/HalfLife2.cpp:528-560 | in the table of the first class of that name, and after any history of lookups, misses included: the first property of that name, with the offsets along its path added up; failing that, for a dotted name, where its components lead; None exactly when neither exists, or there is no such class |
| PropLookup.DataMapCache.FindDataMapInfo | core/HalfLife2.cpp:586-616 | likewise for data maps: the first field of that name, or where the components lead, or None exactly when neither exists |

## Findings

Properties one would expect of the code that it does not have, each with the condition that decides it.

- A key press that has a page drawn again (core/MenuStyle_Base.cpp:574-610, 385-412) can deliver a second OnMenuCancel
  and OnMenuEnd for a menu that its own drawing callbacks closed: exactly when the search ends with no page and the
  menu is closed by then. And the vote handler can have a drawing callback to pass on with m_pHandler already NULL
  (core/MenuVoting.cpp:519-533): exactly when the client's menu was the vote's and the vote is over when the next
  callback is due. `ClientPressedKey` states both equivalences over the state after the last drawing callback
  (`DrawnFate`), that neither happens unless somebody asked for a menu to be closed in between, and a callback for each
  that makes it happen: `NoPage(Closing(c))` on every open menu, `TwoItems(Closing(c))` on the last open vote menu.
  `EndedTwice` and `OrphanedVote` are runs from a fresh server that end so. Whatever a run does, the sessions ended
  twice are the ones of such key presses, and all others are ended once (`StartsAndEnds`).
- A Previous button is missing although item 0 could be drawn, when item 0 is the only drawable item before the page
  (`PreviousMissing`). From page-aligned starts, so in every run of Next and Back from the first item, this cannot
  happen (`BrowsingFollowsPages`).
- With both a No Vote and an Exit button the panel is full before Exit is drawn, and the slots of every key up to 9 are
  cleared, although their keys are advertised (`KeysServed`, if and only if; `KeysServedExample`).
- A client that is ready to be authorised can be passed over by a whole pass, when a listener drops clients that stand
  ahead of the one just authorised: the array moves down under the walk, by as many places (`HowManyPassedOver`). It is
  left in the queue if and only if some step does that to it and no later one drops it (`PassedOverIff`;
  `ReadyPassedOver` is the smallest case), so when listeners drop nobody ahead, nobody is (`NobodyPassedOver`).
- A config file that exists, cannot be opened, but can be replaced, is written over with every variable's default; so
  values are lost exactly if it holds any other (`ExecuteConfig`, if and only if; `ValueReplaced`).
- A config value that ends in a blank, a line break or a quote does not survive being written and read
  (`RoundTripIff`, `RoundTripExample`); values that have been read once do (`ParseReadBack`), so files settle the second time
  (`RegenerationSettles`).
- A client that the listeners accept and also drop while they decide is put in the authorisation queue although it has
  gone (`OnClientConnect`, if and only if; `KickedWhileConnecting`).
- Buffered console text is lost when a flush finds the client connected but without a channel (`NothingLostIff`;
  `LostWithoutChannel` is such a run).
- A repeater that fires more than 0.1 s past its next slot starts a new grid (`NoDrift`, if and only if; `NoDriftExample`).

## Left out

- GameFrame: time is exact; rounding of `float` and `double` is not modelled.
- RemoveMapChangeTimers: a pointer on the kill stack to a timer that a callback freed and recycled kills the new timer; the claim that others are untouched is made for callbacks that do nothing.
- ProcessRepeatTimers: the walk is promised to serve repeaters of positive interval; one with a zero or negative interval may be due again at once.
- NoDrift: runs in which no callback makes a delayed FireTimerOnce; what one does to the grid is stated frame by frame (ProcessRepeatTimers).
- RenderMenu: text, translations and titles; the panel's ability to draw disabled controls, which the radio panel does not have; an OnMenuDisplayItem that draws something other than the item's own style; a callback that answers differently for the same item twice in one rendering.
- DrawItems: the handler is asked about items in some number and order; which items, and how their answers make the page, is the subject of MenuRender and not tied to the callbacks here.
- ClientPressedKey: after a second OnMenuEnd to the vote handler, whose count of open menus is wrong from then on, and after a callback with nobody to take it, nothing more is promised.
- DoClientMenu: exactly when it succeeds after an OnMenuStart that does something; and for a client that has the vote's menu open, whether the two callbacks that end a vote come before those of the drawing.
- Play: key presses and the clock come from the engine, so they do not nest inside callbacks (a player dropped there does: Drop and DropFromVote); which real item a ballot is for comes from the menu and is taken to exist.
- EndVoting: `m_NumVotes`, the hint box, the vote delay and the display timer; the order qsort gives to equal counts.
- MenuCancel: destroying a menu, and with it the deferred deletion after a cancel.
- OnUserMessageSent: recipients of the message, and bInExternMenu.
- BeginVote: clients are numbered up to 256, as StartVote accepts them.
- AddOrFindCommand: access flags, overrides, dispatch of commands, and creating the command in the engine.
- RegisterUndone: an empty list of the plugin or the group may stay behind, and the credit for an engine command.
- ExecuteConfig: paths and folders, the exec command itself, and how a bound's number is formatted.
- GenerateThenParse: names are non-empty words under 256 characters that are no comment and distinct whatever their case; values have no line break or NUL; lines are under 4096 characters.
- RunAuthChecks: who is ready is an input; kicking a client for failing authorisation is one of the callbacks' effects.
- OnClientConnect: a human who connects inside a listener's callback, and what listeners do when a client that was connected already is disconnected first.
- OnPrintfFrameAction: the engine's channel and its fill are inputs, asked in order.
- Connect: serials are unbounded; the original's wrap after 2^24 connections.
- RunFrameHooks: the mutex, and the other hooks of the frame.
- OnMessageEndPre: post hooks, nested messages sent from a callback, and the pool of listener objects.
- AutoSelectFor: an object freed and another allocated at its address.
- FindIsFirstMatch: the special case for the offset of a CUtlVector, and wrap-around of 32-bit offsets.
- FindServerClass: classes with the same name other than the first.
- Radio_Refresh, the 240-byte chunking of menu text; ConsoleDetours, the vtable hook counts; EventManager and everything of the natives but the HUD allocator: not part of this model.
