# MaNGOS: matchmaking, login protocol, capture points, conditions

This project models four parts of the MaNGOS game server that are state machines with rules
spread over many functions, and proves what they promise over every input and every run.

**Battleground matchmaking.** Players queue alone or in groups; `BattleGroundQueue` keeps the
player map, the group records and four lists for each level bracket in step, picks teams with two
selection pools, and invites groups to battlegrounds that count invitations with one counter for each team.
`QueueModel` says what each operation does to the queue, `SelectionPools`, `Filling`, `Matching`,
`FactionMoves`, `RatedMatches` and `Inviting` what gets selected, moved and invited, `FirstCome` what serving a list
first come, first served means without any loop, `QueueRuns` what holds
over every run of the queue, `Ledger` what the counters count (the books are right when no counter is below it,
and kept when each counter moves with it), `WaitTimes` what the wait-time average reports. `BattleGroundQueue.dfy`,
`BattleGrounds.dfy` and `SelectionPools.dfy` hold the classes that do it in place. A group record
is a reference into a store, so the map, the lists and the pools share it as the C++ pointers do;
deleting it takes it out of the store.

**The world protocol's front end.** `WireCodec` packs headers, `FrameReader` cuts frames out of a
byte stream that arrives in pieces, `AuthSession` decodes the login body, `Handshake` and
`ClientConnection` are the login state machine. `Draining`, `ConnectionSafety`, `Logins`, `ConnectionCuts`
and `PacketStream` say what holds over whole streams and runs. Whatever the connection cannot decide
itself (the cipher, random bytes, the clock, account lookup, attaching to the world) is a set of
answers, a `World`, over which every theorem is quantified; the cipher is any function of the
keystream position.

**Capture-point battlegrounds.** `EventObjects` is the spawning of objects by events;
`AlteracValley`, `AlteracMatch`, `ArathiBasin` and `ArathiMatch` are the nodes, mines, banners,
timers and map icons of the two battlegrounds, `AlteracCourse` and `ArathiCourse` what clicks and time achieve
there, with the classes in `BattleGroundAV.dfy` and `BattleGroundAB.dfy`. A client is the map of world states it has been sent.

**The condition-table compiler.** `Conditions` and `ConditionRun` compile rows of up to three
conditions into ids of one shared table of numbered entries, where an entry is a condition or the
AND of two earlier entries.

Each class method is proved to compute a function of its old state; what the server promises is
proved about those functions. Where a proof begins with `hide`, it does without the definitions named
and rests on the contracts alone; unfolding them as well would cost the verifier several times as much.

## Main results

- `QueueRuns.EveryRunInOrderExactly`, `Ledger.EveryRunKeepsTheBooks`: queue invariant and invited counters over every run.
- `Filling.RoundsKeep`, `SelectionBalanced`, `SelectionFits`, `SelectionFills`: the kick-and-refill loop terminates, balanced, within limits and with no group passed over that had room at its turn.
- `Matching.NormalMatchIs`, `FactionMoves.PremadeMatchIs`, `BattleGroundQueues.SkirmishIsSo`, `RatedMatches.PairIsFirst`: which match is made, told without the loops that make it.
- `BattleGroundQueues.BattleGroundQueue.CheckSkirmish`, `CheckRated`: faction moves lose nothing, and whoever is found can be invited.
- `Draining.AnyTwoCutsAgree`, `ConnectionSafety.EveryRunIsSafe`, `PacketStream.SentIsReceived`: the protocol over every stream and run.
- `Logins.EveryLoginIsProven`: nobody gets in, over any run, without the proof for the challenge he was sent, and whoever has it does.
- `AuthSession.DecodeInvertsEncode` and `AcceptedIsEncoded`: the login body, both ways.
- `AlteracMatch.EveryMatchInOrder`, `ArathiMatch.EveryMatchInStep`, `EventObjects.EveryRunShowsActive`: nodes, banners and maps over every match.
- `AlteracCourse.StandingBannerClicked`, `LeftAloneAges`, `HeldMineRunsOut`, `ArathiCourse.ClickIs`, `LeftAloneAges`, `UpdateIs`, `PaidForTime`: what clicks and time come to, over every match.
- `ConditionRun.ConversionIsRight`: compiling rows preserves their meaning.

## Where the code does something else

Each of these is a lemma with a concrete case, an exact condition, or both.

- `onData` looks at `closed()` only on entry. When the answer to a ping cannot be encrypted the
  connection closes, but frames of the same piece are still handled (`ConnectionCuts.CutsAgreeExactly`, `DrainClosesExactly`, `PingClosesMidway`).
- A group joining with a member who is already queued takes that member's record over while the old group
  keeps listing him (`QueueModel.AddGroupKeepsExactly`, `QueueRuns.OnlyLargeGroupsGoWrong`, `JoiningTwiceGoesWrong`). `Group::CanJoinBattleGroundQueue` lets this through: it answers
  `ERR_BATTLEGROUND_NONE` for a group that is too large before it looks at the members' queues
  (src/game/WorldHandlers/GroupInstance.cpp:185-188).
- A group queued under the type for all arenas is invited to a match registered under the map's own type, so
  leaving the queue then does not give the place back (`Ledger.LeavingKeepsCountExactly`, `ArenaCounterStaysHigh`;
  src/game/BattleGround/BattleGroundMgr.cpp:844-847). This is a property of the queue's interface: in this tree the only
  callers of `AddGroup` (src/game/BattleGround/BattleGroundHandler.cpp:250, 273) pass no arena type and no rating, the opcode to
  join an arena has no handler (src/game/Server/Opcodes_reference.h:1397), and without an arena type the type for all arenas
  has no queue (src/game/BattleGround/BattleGroundMgrUtil.cpp:112-130).
- Members who are offline when their group is invited are not counted but keep the invitation
  (`Inviting.InviteCountsOnlineExactly`, `OfflineMemberUncounted`). Logging out takes a queued player out of his queues
  (src/game/Server/WorldSession.cpp:1150-1157), so whoever is queued can normally be found.
- Premade groups are meant to be demoted after a wait; while the server has been up for less than that, the
  unsigned subtraction wraps and they are demoted at once (`FactionMoves.WaitedExactly`, `DemotedTooEarly`).
- `getMSTimeDiff` is one short when the clock wraps (`WaitTimes.TimeDiffExactly`), and the ten-wait average
  is missing while the tenth slot is zero (`WaitTimes.ReportedIsMeanExactly`, `NoWaitHidesAverage`).
- When a graveyard in Alterac Valley is taken, the strength of the defenders that leave is looked up under the team that takes it, so
  they stay if the two teams' scraps have not got equally far (`AlteracCourse.DefendersAre`).
- After a defence in Alterac Valley the previous owner is the enemy, not the total owner (`AlteracValley.PrevIsTotalExactly`, `DefendedRemembersEnemy`).
- `SpawnEvent` takes an event that was never set for event 0 (`EventObjects.SwitchKeepsExactly`, `UnpreparedRunGoesWrong`).
  No caller does so: the battlegrounds' `Reset` sets the events they switch (src/game/BattleGround/BattleGround.cpp:961-964 for the
  doors and the arena buffs, src/game/BattleGround/BattleGroundAV.cpp:1138-1202, src/game/BattleGround/BattleGroundAB.cpp:621-650,
  src/game/BattleGround/BattleGroundWS.cpp:719-721, src/game/BattleGround/BattleGroundEY.cpp:402-406).
- The reader refuses payloads over 10236 bytes although the sender's header has room for them (`PacketStream.SentIsReceived`, `LongerIsRefused`).
- Comments that differ from the code, which is followed: the order of the four icons in
  src/game/BattleGround/BattleGroundAV.h:271 (the index is team * 2 + state, and assaulted is 0), a banner delay of 3 s
  (src/game/BattleGround/BattleGroundAB.cpp:93; the code waits 2 s), 80 s to answer an invitation (src/game/BattleGround/BattleGroundQueue.cpp:811; the code allows 60 s), and opcodes
  that cannot be framed being "never silent" (src/proto/MopWireCodec.h:49; they are dropped).

## Model

| member | source | states |
|---|---|---|
| Ledger.EveryRunKeepsTheBooks | src/game/BattleGround/BattleGroundQueue.cpp:226-653 | Over every run of joining, leaving, inviting (arenas too), demoting, switching sides, starting rated matches, accepting, arriving, leaving the battleground, opening and closing: each invited counter equals the queued players holding that invitation plus the players on their way plus the players inside plus the places lost, a place being lost exactly when an invited player leaves the queue and his battleground is not found; so it counts exactly those players if and only if none has been lost; it stays within the team size, is never lowered at zero, no player is in two places, and the queue invariant holds |
| Ledger.TakeKeeps | src/game/BattleGround/BattleGroundQueue.cpp:430-653 | Every single step keeps queue invariant, limits and places, leaves no counter below what it counts, and raises a counter's excess by one exactly when it loses a place |
| Ledger.NothingUnderflows | src/game/BattleGround/BattleGround.cpp:913 | No step that is possible in such a state decrements a counter that is zero, lost places or not, so the 32-bit wrap-around never happens |
| Ledger.JoinKeeps | src/game/BattleGround/BattleGroundQueue.cpp:226-294 | The books and the queue stay right when a new group joins, with every counter as it was |
| Ledger.LeavesKeeps | src/game/BattleGround/BattleGroundQueue.cpp:484-515 | The books and the queue stay right when a queued player leaves: his place is given back if he holds an invitation and its battleground is found, and is lost if it is not |
| Ledger.InviteKeepsBooks | src/game/BattleGround/BattleGroundQueue.cpp:592-651 | Whatever battleground a free group that fits is invited to, the counter rises by as many players as now hold the invitation, and queue and limits stay right |
| Ledger.StartsKeeps | src/game/BattleGround/BattleGroundQueue.cpp:1239-1260 | The start of a rated match keeps queue, limits and books: both counters rise by the players of their team |
| Ledger.DemotesKeeps | src/game/BattleGround/BattleGroundQueue.cpp:813-826 | The books and the queue stay right when a premade group is demoted, with every counter as it was |
| Ledger.SwitchesSideKeeps | src/game/BattleGround/BattleGroundQueue.cpp:945-963 | The books and the queue stay right when a group that is not invited changes sides, with every counter as it was |
| Ledger.PortsKeeps | src/game/BattleGround/BattleGroundHandler.cpp:573-591 | The books stay right when a player accepts: out of the queue without a decrement, out of his old battleground with one, and from then on counted as on his way |
| Ledger.ArrivesKeeps | src/game/WorldHandlers/MovementHandler.cpp:315-320 | The books stay right when a player on his way arrives, without touching a counter |
| Ledger.LeavesGroundKeeps | src/game/BattleGround/BattleGround.cpp:827-914 | The books stay right when a player leaves a battleground, lowering the counter of the team he was inside for |
| Ledger.OpensKeeps | src/game/BattleGround/BattleGroundMgr.cpp:833-940 | The books stay right when a battleground opens with zero counters |
| Ledger.ClosesKeeps | src/game/BattleGround/BattleGround.cpp:387-406 | The books stay right when an empty battleground with zero counters is deleted |
| Ledger.ClosedIsUnclaimed | src/game/BattleGround/BattleGround.cpp:387-406 | A battleground that may be deleted has nobody left who holds an invitation to it or is on his way there |
| Ledger.LeavingKeepsCountExactly | src/game/BattleGround/BattleGroundQueue.cpp:491-499 | A leaving invited player keeps his battleground's count right if and only if the manager finds the battleground under the group's own type (the guard at 494-495) |
| Ledger.ArenaCounterStaysHigh | src/game/BattleGround/BattleGroundQueue.cpp:491-499 | Concrete failure of the queue's interface: a group queued for any arena, invited to a Nagrand match, leaves; the queue is empty and the counter still says 1 (AddGroup has no caller for arenas in this tree) |
| QueueRuns.EveryRunInOrderExactly | src/game/BattleGround/BattleGroundQueue.cpp:226-653 | Over every run of joining, leaving, inviting to any instance, demoting, switching sides and starting rated matches: at every moment each queued player is in exactly one group, no group is empty, and each stands in exactly one list of its own team, if and only if nobody has joined who was queued already |
| QueueRuns.LeaverIsFound | src/game/BattleGround/BattleGroundQueue.cpp:432-482 | In such a run a queued player is always found in his group and the group in a list, so the not-found branches are dead |
| QueueRuns.OnlyLargeGroupsGoWrong | src/game/WorldHandlers/GroupInstance.cpp:185-228 | A group that the join check lets through can put the queue out of order only if it is too large |
| QueueRuns.JoiningTwiceGoesWrong | src/game/WorldHandlers/GroupInstance.cpp:185-228 | Concrete failure, for any size limit: a player alone in the queue joins again with a group one too large, which the join check lets through; the old group keeps listing him |
| QueueModel.AddGroupKeepsExactly | src/game/BattleGround/BattleGroundQueue.cpp:266-293 | AddGroup keeps the queue invariant if and only if none of the members was queued before |
| QueueModel.RemovePlayerKeeps | src/game/BattleGround/BattleGroundQueue.cpp:430-537 | Removing any queued player keeps the invariant; in particular the group it belonged to is always found in a list |
| QueueModel.RatedGroupLeavesWhole | src/game/BattleGround/BattleGroundQueue.cpp:510-536 | Removing one member of an uninvited rated group removes exactly its members and the group itself, from the one list where it stood, whose other groups keep their order; every other player, group and list is unchanged |
| QueueModel.LeavesAlone | src/game/BattleGround/BattleGroundQueue.cpp:484-515 | A member of any other group leaves alone: with the last member the group goes, out of one list whose other groups keep their order; otherwise it stays where it stands, smaller by one; no other player, group or list changes |
| QueueModel.ErasedRest | src/game/BattleGround/BattleGroundQueue.cpp:516-536 | Whichever remaining member the recursion takes next, the result is the same |
| QueueModel.InviteKeeps | src/game/BattleGround/BattleGroundQueue.cpp:592-609 | Inviting a group on its own side keeps the invariant |
| QueueModel.DemoteKeeps | src/game/BattleGround/BattleGroundQueue.cpp:819-824 | Moving a group between two lists of the same parity keeps the invariant |
| QueueModel.SwitchSideKeeps | src/game/BattleGround/BattleGroundQueue.cpp:946-963 | Flipping a group's team together with moving it to a list of the other parity keeps the invariant |
| QueueModel.RatedSwitch | src/game/BattleGround/BattleGroundQueue.cpp:1243-1260 | In the rated case the list move happens before the invitation sets the team; the outcome is the same as switching team and list together |
| BattleGroundQueues.BattleGroundQueue.constructor | src/game/BattleGround/BattleGroundQueue.cpp:74-88 | A new queue is empty and in order |
| BattleGroundQueues.BattleGroundQueue.AddGroup | src/game/BattleGround/BattleGroundQueue.cpp:226-294 | A fresh record with exactly the members, uninvited, stands last in list 4 * bracket + (0 if rated or premade, else 2) + (1 for the horde); its members belong to it and nothing else has changed; the queue stays valid if and only if no member was queued |
| BattleGroundQueues.BattleGroundQueue.QueueMembers | src/game/BattleGround/BattleGroundQueue.cpp:266-290 | Every member, and nobody else, now points to the new group |
| BattleGroundQueues.BattleGroundQueue.FindGroup | src/game/BattleGround/BattleGroundQueue.cpp:450-475 | The search from the last bracket down always finds the one list and position where the group stands; the not-found branch is dead |
| BattleGroundQueues.BattleGroundQueue.RemovePlayer | src/game/BattleGround/BattleGroundQueue.cpp:430-537 | Terminates (queued players decrease); unknown players change nothing; otherwise the new queue is the specified one and the only counter touched is the group's, by one, if asked for and invited |
| BattleGroundQueues.BattleGroundQueue.RemoveNext | src/game/BattleGround/BattleGroundQueue.cpp:516-536 | The recursive removal of the rest of a rated group changes no counter and ends in the same queue as removing the first player |
| BattleGroundQueues.BattleGroundQueue.CloseGroup | src/game/BattleGround/BattleGroundQueue.cpp:510-515 | An emptied group is erased from the list where it was found and deleted; one with members left stays |
| BattleGroundQueues.BattleGroundQueue.ErasePlayer | src/game/BattleGround/BattleGroundQueue.cpp:432-502 | The player is out of the group and of the map and his place is given back if it was one |
| BattleGroundQueues.BattleGroundQueue.GiveUpPlace | src/game/BattleGround/BattleGroundQueue.cpp:491-499 | One decrement for the group's team in the battleground found by instance and type, nothing otherwise |
| BattleGroundQueues.BattleGroundQueue.EraseGroup | src/game/BattleGround/BattleGroundQueue.cpp:511-515 | Takes one position out of one list and deletes the record |
| BattleGroundQueues.BattleGroundQueue.InviteGroupToBG | src/game/BattleGround/BattleGroundQueue.cpp:592-653 | Sets the side in any case; a group not yet invited gets the instance and a deadline 60000 ms on, on the 32-bit clock, and the counter rises by the members who are online; an invited one is refused; no other record changes |
| BattleGroundQueues.BattleGroundQueue.CountMembers | src/game/BattleGround/BattleGroundQueue.cpp:612-627 | The loop raises the counter once for each online member |
| BattleGroundQueues.BattleGroundQueue.InviteSelection | src/game/BattleGround/BattleGroundQueue.cpp:1005-1012 | Inviting one pool after the other group is inviting the whole selection |
| BattleGroundQueues.LeavingTheQueue | src/game/BattleGround/BattleGroundQueue.cpp:430-537 | What RemovePlayer does to queue and counters is the leaving step of the ledger |
| BattleGroundQueues.StartingTheMatch | src/game/BattleGround/BattleGroundQueue.cpp:1239-1260 | With everybody online, what StartRatedMatch does to queue and counters is the ledger's step |
| Inviting.InviteCountsOnlineExactly | src/game/BattleGround/BattleGroundQueue.cpp:612-627 | Inviting keeps the count right if and only if all members of the group are online |
| Inviting.OfflineMemberUncounted | src/game/BattleGround/BattleGroundQueue.cpp:612-627 | Concrete failure: of a group of two one is offline; both hold the invitation and one is counted |
| SelectionPools.SelectionPool.Init | src/game/BattleGround/BattleGroundQueue.cpp:122-126 | The pool is empty |
| SelectionPools.SelectionPool.AddGroup | src/game/BattleGround/BattleGroundQueue.cpp:188-203 | The count stays the sum of the selected sizes; a group is taken if and only if it is not invited and fits; the answer says taken or still room |
| SelectionPools.SelectionPool.KickGroup | src/game/BattleGround/BattleGroundQueue.cpp:138-175 | The count stays the sum of the sizes; the group the specification names is kicked and the answer is whether refilling makes sense |
| SelectionPools.SelectionPool.FindKick | src/game/BattleGround/BattleGroundQueue.cpp:147-160 | The loop picks the group the specification names |
| SelectionPools.KickIndexIsKick | src/game/BattleGround/BattleGroundQueue.cpp:147-160 | The scan ends on the last group whose size differs by at most one from the wanted one, or, without such a group, on the last of the largest |
| SelectionPools.KickUnique | src/game/BattleGround/BattleGroundQueue.cpp:147-160 | That description fits one position only |
| SelectionPools.ScanKeeps | src/game/BattleGround/BattleGroundQueue.cpp:677-688 | Offering groups until the pool says full selects only free groups in front of the iterator, each once, never beyond the wanted number |
| SelectionPools.Offer | src/game/BattleGround/BattleGroundQueue.cpp:677-688 | The loop that offers groups to a pool, iterator and count included |
| FirstCome.ScanServes | src/game/BattleGround/BattleGroundQueue.cpp:672-689 | Offering a list to a pool from a position on serves it first come, first served: the pool ends up as what it held followed, in list order, by exactly those groups that were free and had room at their turn; and it stops at the end or at the first group not taken when the pool was full |
| FirstCome.FirstFitUnique | src/game/BattleGround/BattleGroundQueue.cpp:672-689 | First come, first served leaves no choice: there is one such selection |
| FirstCome.FullTakesNone | src/game/BattleGround/BattleGroundQueue.cpp:188-203 | A pool that is full takes nobody, whatever is offered |
| Filling.RoundKeeps | src/game/BattleGround/BattleGroundQueue.cpp:707-752 | Each round of kick and refill either looks at more groups or selects fewer, keeps every group selected once and uninvited and both sides within their free slots |
| Filling.RoundsKeep | src/game/BattleGround/BattleGroundQueue.cpp:707-752 | The loop terminates (groups not yet looked at, then groups selected) and ends balanced |
| Filling.SelectionBalanced | src/game/BattleGround/BattleGroundQueue.cpp:666-753 | On exit the free slots left on the two sides differ by at most 1, or both pools are empty, or one pool is empty and its free slots are at most the other side's remainder plus 1 |
| Filling.SelectionFits | src/game/BattleGround/BattleGroundQueue.cpp:666-753 | No group twice, none invited, each from its own side's list, and never more players than free slots, also with the shifted refill target |
| Filling.EvenGreedyStays | src/game/BattleGround/BattleGroundQueue.cpp:677-707 | If the first greedy pass is even enough, the loop changes nothing |
| Filling.SelectionFills | src/game/BattleGround/BattleGroundQueue.cpp:666-753 | The selection is what its rules say, without the loops: both lists are served first come, first served under the free slots, and with balancing on the rounds below follow, one after the other, until the remainders differ by at most 1, nobody is left, or a round gives up |
| Filling.RoundEvens | src/game/BattleGround/BattleGroundQueue.cpp:707-752 | A round, by its rules: the side with fewer places left gives up the one group that IsKick names; if that was larger than the difference by more than 1, its list is served again from where it stood, under its free slots less what the other side has left, otherwise nobody takes the place; only if its pool is empty then does the other side give up a group, or, when it has no more than one place more to fill than that, the loop ends |
| Filling.RefillGivesUp | src/game/BattleGround/BattleGroundQueue.cpp:713-719 | Kicking and refilling: what remains of the pool, followed by exactly the groups from the stopping point on that are free and have room at their turn, up to the end or until the pool is full; or, when the kicked group was not larger than wanted by more than 1, what remains of the pool and nobody else |
| Filling.RoundsBalance | src/game/BattleGround/BattleGroundQueue.cpp:705-752 | The rounds follow one another by these rules until there is nothing left to even out |
| Filling.FillPlayersToBG | src/game/BattleGround/BattleGroundQueue.cpp:666-753 | The method with moving iterators leaves in the pools a selection that meets these rules (Filled), with correct player counts; it is the specified one |
| Filling.DoRound | src/game/BattleGround/BattleGroundQueue.cpp:709-751 | One round of the loop with its iterators: kick, refill with the shifted target, and the break when one side is empty and not behind; RoundEvens says what that achieves |
| Filling.Balance | src/game/BattleGround/BattleGroundQueue.cpp:705-752 | The whole loop with its iterators ends with the specified selections and correct player counts; RoundsBalance says what they are |
| BattleGroundQueues.BattleGroundQueue.FindJob | src/game/BattleGround/BattleGroundQueue.cpp:668-683 | The job is the bracket's two normal lists and, while the match waits or runs, the team size less the counter of each side, otherwise no slots |
| BattleGroundQueues.BattleGroundQueue.FillRunning | src/game/BattleGround/BattleGroundQueue.cpp:991-1012 | Filling and inviting, for any battleground and whoever is online: each counter rises by no more than the pool's player count and stays within the team size, and the remainders are balanced; if all queued players are online and the books are right, each counter rises by exactly the pool's player count and the books stay right; the pools hold what the rules of filling (Filled) say |
| BattleGroundQueues.BattleGroundQueue.FillPlayersToBG | src/game/BattleGround/BattleGroundQueue.cpp:666-753 | What is selected can be invited, for any battleground: free groups of the right side that fit, with correct player counts and balanced remainders; the pools hold what the rules of filling (Filled) say |
| BattleGroundQueues.SelectionIsInvitable | src/game/BattleGround/BattleGroundQueue.cpp:666-753 | For every queue in order and every battleground: what the filling selects are free groups of the right side, each once, that fit |
| Inviting.InviteAllKeeps | src/game/BattleGround/BattleGroundQueue.cpp:1005-1012 | Inviting a selection that fits keeps the books and raises the counter by the selection's total |
| Inviting.SeenWithin | src/game/BattleGround/BattleGroundQueue.cpp:1005-1012 | Whoever is online, inviting a selection that fits raises the counter by at most its total and within the limit |
| Inviting.AllOnlineSame | src/game/BattleGround/BattleGroundQueue.cpp:1005-1012 | With all members online it raises the counter as the ledger says |
| Inviting.InviteBothKeeps | src/game/BattleGround/BattleGroundQueue.cpp:1005-1012 | After inviting both pools each counter has risen by its pool and is within the team size |
| Matching.NormalMatchFits | src/game/BattleGround/BattleGroundQueue.cpp:844-893 | Both selections come from their lists in order, without repeats and without invited groups, and never exceed maxPlayers |
| Matching.NormalMatchIs | src/game/BattleGround/BattleGroundQueue.cpp:844-893 | What a normal match is, without the loops: each side is served first come, first served under maxPlayers up to and including the group that brings it to minPlayers; when both sides got there and balancing is on, the larger keeps its groups and the smaller (the alliance if equal) also takes, first come, first served under the other side's count, the groups behind that point |
| Matching.GatherWalks | src/game/BattleGround/BattleGroundQueue.cpp:847-866 | The walk through a list takes exactly the groups that are free and have room at their turn, and stops at the group that makes up minPlayers or at the end |
| Matching.ExtendServes | src/game/BattleGround/BattleGroundQueue.cpp:868-880 | The second walk serves the rest of the list first come, first served |
| Matching.ShortMeansExhausted | src/game/BattleGround/BattleGroundQueue.cpp:847-873 | Stopping before the end of a list is the same as having enough players, so the increment at 872 never leaves the list |
| Matching.CheckNormalMatch | src/game/BattleGround/BattleGroundQueue.cpp:844-894 | The pools hold that match (IsNormalMatch), with correct counts; it is accepted if and only if both sides have minPlayers, or somebody is there when testing, except that with balancing on two full sides must not differ by more than 2 |
| Matching.RefusedIsGathered | src/game/BattleGround/BattleGroundQueue.cpp:844-893 | With min = max, a normal match that is refused leaves in the pools exactly what the walks through the two lists have gathered |
| BattleGroundQueues.BattleGroundQueue.CheckNormalMatch | src/game/BattleGround/BattleGroundQueue.cpp:844-894 | The same for the two normal lists of a bracket: the pools hold that match (IsNormalMatch) and the answer is the same arithmetic on the two counts |
| BattleGroundQueues.NormalMatchIsInvitable | src/game/BattleGround/BattleGroundQueue.cpp:1112-1124 | A normal match can be invited to a battleground with room for maxPlayers on both sides |
| BattleGroundQueues.NotAcceptedIsGathered | src/game/BattleGround/BattleGroundQueue.cpp:844-894 | The same for the bracket's two normal lists, so the skirmish search starts from pools it can use |
| FactionMoves.PremadeMatchFits | src/game/BattleGround/BattleGroundQueue.cpp:768-806 | Each side starts with its first free premade group if that fits, adds free normal groups, none twice, never beyond maxPlayers |
| FactionMoves.PremadeMatchIs | src/game/BattleGround/BattleGroundQueue.cpp:768-806 | What a premade match is: each side's first free premade group, unless it is larger than maxPlayers, followed by the normal groups that are free and have room at their turn, first come, first served, under the larger of the two premade sizes |
| BattleGroundQueues.BattleGroundQueue.CheckPremadeMatch | src/game/BattleGround/BattleGroundQueue.cpp:768-829 | Found if and only if both premade lists hold a free group: then the queue is unchanged and the pools hold the specified match with correct player counts; otherwise the pools are still empty, ready for the normal match, and the queue has changed by nothing but the demotion of each list's first group; the match found is the one its rules name (IsPremadeMatch) |
| BattleGroundQueues.BattleGroundQueue.CheckSkirmish | src/game/BattleGround/BattleGroundQueue.cpp:1106-1109 | The two searches in sequence, from empty pools: a normal match is taken if and only if it is acceptable, with the queue unchanged; otherwise a faction may play itself, and then both pools hold exactly n players and no common group, the second pool's groups have changed sides, in records and lists, losing nothing, and both pools can be invited, each on the side it is on by then. Which match it is follows from its rules alone (IsNormalMatch, SkirmishSearch) |
| BattleGroundQueues.SkirmishIsSo | src/game/BattleGround/BattleGroundQueue.cpp:897-965 | What a skirmish within a faction is, without the loops: the horde faces itself if it has gathered exactly n players, else the alliance if it has; its opponents are the groups behind the last one gathered, first come, first served under n, and the skirmish takes place if and only if they come to n |
| BattleGroundQueues.SkirmishPlays | src/game/BattleGround/BattleGroundQueue.cpp:897-965 | After a skirmish has been found both pools hold different free groups of their side that come to exactly n players |
| BattleGroundQueues.PlayersFit | src/game/BattleGround/BattleGroundQueue.cpp:1112-1124 | Such pools can be invited to a battleground with room for n players on both sides |
| BattleGroundQueues.BattleGroundQueue.DemoteFirst | src/game/BattleGround/BattleGroundQueue.cpp:816-825 | The first group of the premade list goes to the front of the normal list if and only if it is free and has waited or is too small; otherwise both lists stay as they are |
| BattleGroundQueues.PremadeMatchIsInvitable | src/game/BattleGround/BattleGroundQueue.cpp:1084-1095 | A premade match can be invited to a battleground with room for maxPlayers |
| FactionMoves.DemotedKeeps | src/game/BattleGround/BattleGroundQueue.cpp:813-826 | Demotion keeps the invariant and every group record |
| FactionMoves.WaitedExactly | src/game/BattleGround/BattleGroundQueue.cpp:810-819 | For any two readings of the wrapping clock: the unsigned comparison means waited longer than the limit if and only if, without a wrap in between, the server has been up for that long, and with a wrap, it was less than the limit ago or the group has not waited that long |
| FactionMoves.DemotedTooEarly | src/game/BattleGround/BattleGroundQueue.cpp:810-819 | Concrete failure: ten minutes after the start a group that has waited one minute counts as having waited half an hour |
| FactionMoves.SwitchKeeps | src/game/BattleGround/BattleGroundQueue.cpp:946-963 | Every switched group has its team flipped and stands at the front of the other list, in reverse order; the two lists together gain and lose nothing; the invariant is kept |
| FactionMoves.OpponentsAreOthers | src/game/BattleGround/BattleGroundQueue.cpp:913-939 | The opponents are free groups of the same list, none of them in the first pool, at most minPlayers in all |
| BattleGroundQueues.BattleGroundQueue.CheckSkirmishForSameFaction | src/game/BattleGround/BattleGroundQueue.cpp:897-965 | After a refused normal match with min = max: the result, the pools with their player counts, and the lists are the specified ones, and nothing but the second pool changes when no opponents are found |
| BattleGroundQueues.BattleGroundQueue.Skirmish | src/game/BattleGround/BattleGroundQueue.cpp:913-964 | With one faction's pool exactly full, the other pool gets the opponents standing behind its last group; if they are exactly enough they change sides, otherwise the queue is unchanged |
| BattleGroundQueues.BattleGroundQueue.SwitchAll | src/game/BattleGround/BattleGroundQueue.cpp:946-963 | The loop over the second pool moves every one of its groups |
| BattleGroundQueues.BattleGroundQueue.MoveAcross | src/game/BattleGround/BattleGroundQueue.cpp:949-962 | One group: team, push to the front, and the erase behind the first team's last group always finds it |
| BattleGroundQueues.SkirmishMoves | src/game/BattleGround/BattleGroundQueue.cpp:897-965 | On success both pools hold exactly minPlayers, share no group, the second has flipped teams and moved, and the queue invariant holds |
| RatedMatches.PairIsFair | src/game/BattleGround/BattleGroundQueue.cpp:1172-1227 | Two different eligible teams of a playable size, never both on the wrong side |
| RatedMatches.PairIsFound | src/game/BattleGround/BattleGroundQueue.cpp:1172-1227 | If two different eligible teams stand in the two lists, wherever they stand, a pair is found |
| RatedMatches.PairIsFirst | src/game/BattleGround/BattleGroundQueue.cpp:1172-1227 | Who comes first plays: the first free team of each list that is within the ratings or tired of waiting meets the other's; if one list has none to offer, the first two of the other meet, the first of them on its own side |
| RatedMatches.PairComesFirst | src/game/BattleGround/BattleGroundQueue.cpp:1172-1227 | And no pair is found in any other way |
| RatedMatches.Next | src/game/BattleGround/BattleGroundQueue.cpp:1179-1191 | The first eligible team at or after a position |
| RatedMatches.StartedKeeps | src/game/BattleGround/BattleGroundQueue.cpp:1239-1260 | After the start of a rated match the invariant holds, both teams are invited, one on each side, each knows the other's rating, and no other group has changed |
| RatedMatches.StartedIs | src/game/BattleGround/BattleGroundQueue.cpp:1239-1260 | The code moves lists first and lets the invitations set the teams; the result is that of switching list and team together, then inviting |
| BattleGroundQueues.BattleGroundQueue.FindEligible | src/game/BattleGround/BattleGroundQueue.cpp:1179-1191 | The loop finds the first eligible team |
| BattleGroundQueues.BattleGroundQueue.ChooseTeams | src/game/BattleGround/BattleGroundQueue.cpp:1172-1227 | The three searches find exactly the specified pair |
| BattleGroundQueues.PairIsReady | src/game/BattleGround/BattleGroundQueue.cpp:1172-1227 | Whatever pair the search finds in a queue in order: two different teams, both standing in the premade lists, neither invited, of a size that may play |
| BattleGroundQueues.StartIsEnabled | src/game/BattleGround/BattleGroundQueue.cpp:1172-1260 | In the books, such a match can be started in an arena with room for it |
| BattleGroundQueues.BattleGroundQueue.StartRatedMatch | src/game/BattleGround/BattleGroundQueue.cpp:1239-1260 | The queue is started as specified, and the arena's two counters rise by the online members of its team |
| BattleGroundQueues.BattleGroundQueue.CheckRated | src/game/BattleGround/BattleGroundQueue.cpp:1172-1260 | Search and start in sequence, from empty pools: if a pair is found and an arena could be made, both teams are invited, one on each side, each knows the other's rating, the arena counts their online members, and nobody else is touched; otherwise queue and arena are unchanged |
| BattleGroundQueues.BattleGroundQueue.Introduce | src/game/BattleGround/BattleGroundQueue.cpp:1239-1241 | Each team learns the other's rating |
| BattleGroundQueues.BattleGroundQueue.MoveToSide | src/game/BattleGround/BattleGroundQueue.cpp:1244-1257 | A team on the wrong side moves to the front of the other premade list |
| BattleGrounds.BattleGround.IncreaseInvitedCount | src/game/BattleGround/BattleGround.h:791 | One team's 32-bit counter goes up, the other stays |
| BattleGrounds.BattleGround.DecreaseInvitedCount | src/game/BattleGround/BattleGround.h:785 | One team's 32-bit counter goes down, wrapping below zero, the other stays |
| BattleGrounds.BattleGround.GetFreeSlotsForTeam | src/game/BattleGround/BattleGround.cpp:1241-1250 | Only while waiting or in progress, and then the team size less the team's counter, or 0 if that is not less; otherwise 0 |
| BattleGrounds.BattleGround.AddPlayer | src/game/BattleGround/BattleGround.cpp:1022-1040 | The player is inside for the team he was sent with; counters unchanged |
| BattleGrounds.BattleGround.RemovePlayerAtLeave | src/game/BattleGround/BattleGround.cpp:827-914 | A participant is out and his team's counter is lowered once; for anybody else nothing changes |
| BattleGrounds.BattleGround.IsAbandoned | src/game/BattleGround/BattleGround.cpp:389-404 | May be deleted if and only if nobody is inside and both counters are zero |
| BattleGrounds.BattleGroundMgr.GetBattleGround | src/game/BattleGround/BattleGroundMgr.cpp:747-765 | Finds the instance if and only if it exists under the given type, or no type is given |
| BattleGrounds.BattleGroundMgr.GiveBackPlace | src/game/BattleGround/BattleGroundQueue.cpp:494-498 | Lowers the counter of the battleground found, and no other |
| WaitTimes.WaitTimeRing.Record | src/game/BattleGround/BattleGroundQueue.cpp:367-377 | Index, slots and 32-bit sum after a wait are those of the history with that wait appended |
| WaitTimes.WaitTimeRing.Average | src/game/BattleGround/BattleGroundQueue.cpp:391-418 | The method reports what the history determines |
| WaitTimes.QueueWaitTimes.PlayerInvited | src/game/BattleGround/BattleGroundQueue.cpp:348-378 | The wait of an invited player goes into one ring of the 32 and no other: that of the bracket and, outside arenas, of the group's team, in an arena the horde's for a rated match and the alliance's for any other |
| WaitTimes.QueueWaitTimes.GetAverage | src/game/BattleGround/BattleGroundQueue.cpp:391-418 | Reports what the history of the group's own ring determines |
| WaitTimes.SlotsAreLastTen | src/game/BattleGround/BattleGroundQueue.cpp:367-377 | The ten slots sum up to the last ten waits |
| WaitTimes.ReportedIsMeanExactly | src/game/BattleGround/BattleGroundQueue.cpp:408-417 | With ten or more waits whose sum fits 32 bits, the reported value is the floor of the mean of the last ten if and only if the last slot is not zero or that floor is zero anyway |
| WaitTimes.NoWaitHidesAverage | src/game/BattleGround/BattleGroundQueue.cpp:408-417 | Concrete failure: nine waits of a second and one of none; the mean is 900 ms and 0 is reported |
| WaitTimes.NothingBeforeTen | src/game/BattleGround/BattleGroundQueue.cpp:408-417 | 0 before the tenth wait |
| WaitTimes.PositiveWaitsAveraged | src/game/BattleGround/BattleGroundQueue.cpp:348-418 | With positive waits, the floor of the mean of the last ten |
| WaitTimes.TimeDiffExactly | src/shared/Utilities/Timer.h:50-61 | The measured difference is the time passed, or one less when the 32-bit clock wrapped in between |
| WireCodec.GreetingHeaderExact | src/proto/MopWireCodec.h:77-83 | A 4-byte greeting header is read as size and opcode if and only if it is their encoding and the size is at most 10238 |
| WireCodec.PreCryptHeaderExact | src/proto/MopWireCodec.h:97-103 | A 6-byte header is read as size and 32-bit opcode if and only if it is their encoding and the size is at most 10236 |
| WireCodec.PostCryptHeaderExact | src/proto/MopWireCodec.h:104-109 | A 4-byte encrypted-era header is read as 19-bit size and 13-bit opcode if and only if it is their packing and the size is at most 10236 |
| WireCodec.WriteServerPreCryptHeader | src/proto/MopWireCodec.h:32-33 | Writes both fields little-endian |
| WireCodec.WriteServerPostCryptHeader | src/proto/MopWireCodec.h:34-35 | Writes size * 8192 plus the low 13 bits of the opcode, little-endian |
| WireCodec.BuildServerHeader | src/proto/MopWireCodec.h:56-69 | Succeeds if and only if size and opcode are in range, and leaves the buffer alone otherwise |
| WireCodec.ServerHeaderInjective | src/proto/MopWireCodec.h:32-69 | Two packets have the same header only if size and opcode agree |
| FrameReader.MopFrameReader.constructor | src/proto/MopFrameReader.h:50-52 | Nothing buffered |
| FrameReader.MopFrameReader.Push | src/proto/MopFrameReader.h:53 | Appends to the unread bytes; compaction is invisible |
| FrameReader.MopFrameReader.Compact | src/proto/MopFrameReader.h:108-112 | The unread bytes stay the same, and at most 4096 bytes already read are kept, none when nothing is unread |
| FrameReader.MopFrameReader.TryFrame | src/proto/MopFrameReader.h:58-95 | The in-place reader refines the stream function: waits, frame or failure, with the reason, header copy and kind recorded exactly on failure |
| FrameReader.HeaderTakenExactly | src/proto/MopFrameReader.h:58-95 | When a complete header lies ahead: a header that does not decipher is refused as such; else it is refused for its size if and only if no size within the limit and no opcode are written that way; else it is refused for its opcode if that is not valid; otherwise it is taken, and its payload handed out under its opcode as soon as it is all there. A refused header stays on the stream |
| FrameReader.MopFrameReader.DecodeHeader | src/proto/MopFrameReader.h:63-88 | One decrypt call on a complete header, then size check, then opcode check, in this order |
| FrameReader.MopFrameReader.TakePayload | src/proto/MopFrameReader.h:90-94 | Hands out exactly the payload once it is all there |
| FrameReader.MopFrameReader.Fail | src/proto/MopFrameReader.h:101-106 | Remembers reason, at most six header bytes and kind |
| Draining.StepAppend | src/proto/MopFrameReader.h:58-95 | A call that does not ask for more gives the same answer whatever bytes follow |
| Draining.StepResume | src/proto/MopFrameReader.h:58-95 | A call that asked for more can be resumed: header already taken stays decrypted, once, and the header kind no longer matters |
| Draining.DrainAppend | src/proto/ClientConnection.cpp:185-224 | Draining a longer buffer is draining the shorter one and going on |
| Draining.CutsDoNotMatter | src/proto/ClientConnection.cpp:182-224 | However a stream is cut into pushes, the frames, the outcome and the sequence of decrypt calls are those of one push |
| Draining.AnyTwoCutsAgree | src/proto/ClientConnection.cpp:182-224 | Any two ways of cutting the same stream lead to the same frames, outcome and decrypt calls |
| AuthSession.ByteBuffer.ReadBit | src/shared/Utilities/ByteBuffer.h:268-278 | Delivers the next bit, most significant first, and loads a byte only when the last is used up |
| AuthSession.ByteBuffer.ReadBits | src/shared/Utilities/ByteBuffer.h:288-298 | Delivers the number formed by the next bits across byte boundaries |
| AuthSession.ByteBuffer.Read | src/shared/Utilities/ByteBuffer.h:869-918 | Delivers the next bytes and abandons a byte half read as bits |
| AuthSession.ByteBuffer.ReadString | src/shared/Utilities/ByteBuffer.h:1007-1015 | Stops at the end of the buffer |
| AuthSession.DecodeAuthSession | src/proto/MopAuthSession.cpp:32-156 | Result and fields are a function of the unread bytes; the output is left untouched on every failure; no read past the end |
| AuthSession.ReadPrefix | src/proto/MopAuthSession.cpp:45-78 | The 56-byte prefix: 20 scattered digest bytes, seed, build and addon size at their offsets |
| AuthSession.ReadName | src/proto/MopAuthSession.cpp:112-145 | Too short, truncated, or flag and name |
| AuthSession.ReadFlagAndLength | src/proto/MopAuthSession.cpp:124-125 | The first bit is the flag, the next eleven are the length |
| AuthSession.DigestOffsetsDistinct | src/proto/MopAuthSession.cpp:48-76 | The 20 digest reads hit 20 different offsets, none of them inside seed, build or size: a permutation |
| AuthSession.DecodeInvertsEncode | src/proto/MopAuthSession.cpp:32-156 | For every digest, seed, build, addon blob, flag and name of at most 2047 bytes, whatever the padding and whatever follows, decoding the encoded body succeeds with the same fields |
| AuthSession.AcceptedIsEncoded | src/proto/MopAuthSession.cpp:32-156 | Conversely every accepted body is the encoding of its fields with some padding and rest, so success happens exactly when prefix, addon size, length bytes and name all fit |
| AuthSession.RefusedExactly | src/proto/MopAuthSession.cpp:38-151 | Which complaint every other body draws: the first part that does not fit, prefix, addon data, length bits or name |
| ClientConnection.ClientConnection.EncodeForSend | src/proto/ClientConnection.cpp:92-140 | Unframable packets are dropped without using keystream; encrypted headers use four positions; failure is fatal |
| ClientConnection.ClientConnection.SendPacket | src/proto/ClientConnection.cpp:555-575 | Nothing when closed or without a sender; closes on a fatal error; otherwise puts the bytes on the wire |
| ClientConnection.ClientConnection.OnConnect | src/proto/ClientConnection.cpp:142-160 | The greeting goes out or the connection closes |
| ClientConnection.ClientConnection.OnData | src/proto/ClientConnection.cpp:162-230 | Nothing when closed; otherwise the drained state, with the header kind derived anew for every frame, closing on malformed or refused frames |
| ClientConnection.ClientConnection.DispatchFrame | src/proto/ClientConnection.cpp:232-305 | Legality by state and opcode class, then the handler; delivery only under a session |
| ClientConnection.ClientConnection.HandleWowConnection | src/proto/ClientConnection.cpp:307-323 | Compares the string up to its first NUL |
| ClientConnection.ClientConnection.SendAuthChallenge | src/proto/ClientConnection.cpp:325-351 | State and seed change only if the challenge could be sent |
| ClientConnection.ClientConnection.HandleAuthSession | src/proto/ClientConnection.cpp:353-370 | A body that does not decode is rejected before any lookup |
| ClientConnection.ClientConnection.Authenticate | src/proto/ClientConnection.cpp:372-429 | Lookup, proof, preparing the cipher, attach, in this order, each failure rejected with its status; LoginIs and EveryLoginIsProven say what that achieves |
| ClientConnection.ClientConnection.AttachSession | src/proto/ClientConnection.cpp:404-429 | The world hands out a session and the cipher is activated, or the peer is rejected |
| ClientConnection.ClientConnection.CommitCrypt | src/proto/ClientConnection.cpp:432-437 | Cipher active and state authenticated in one go |
| ClientConnection.ClientConnection.HandlePing | src/proto/ClientConnection.cpp:439-494 | Counts fast pings, reports, and answers only if the gateway accepts; PingIs says with which bytes |
| ClientConnection.ClientConnection.RejectAuth | src/proto/ClientConnection.cpp:496-530 | Sends the error; the connection is then closed by the caller |
| ClientConnection.ClientConnection.Close | src/proto/ClientConnection.cpp:577-584 | Marks closed and asks the transport |
| ClientConnection.ClientConnection.OnClose | src/proto/ClientConnection.cpp:586-595 | Detaches the session, if there is one, and forgets it |
| ConnectionSafety.EveryRunIsSafe | src/proto/ClientConnection.cpp:162-305 | Over every run, whatever arrives in whatever pieces: first header greeting, second 6-byte, all later encrypted; at most one lookup and one attach in this order; cipher active exactly when authenticated; every delivery to the one session handed out; nothing ordinary without a session; at most one detach; four keystream positions for each encrypted header |
| ConnectionSafety.RunKeeps | src/proto/ClientConnection.cpp:162-595 | From any connection for which this holds, every further run keeps it, also with a header read and its payload still to come |
| ConnectionSafety.DispatchKeeps | src/proto/ClientConnection.cpp:232-305 | Each frame handled keeps it, and a connection that goes on knows which header comes next |
| ConnectionSafety.AuthSessionKeeps | src/proto/ClientConnection.cpp:353-437 | Authentication keeps it: attach at most once, after the lookup, and crypt exactly with success |
| ConnectionSafety.DecryptKeeps | src/proto/ClientConnection.cpp:532-544 | Each header hook call records the right width |
| ConnectionSafety.DrainKeeps | src/proto/ClientConnection.cpp:185-224 | The frame loop keeps it, also when it stops inside a frame |
| ConnectionSafety.ClosedIsFinal | src/proto/ClientConnection.cpp:177-180 | After close, no data and no send has any effect at all |
| ConnectionSafety.GoneMeansDetached | src/proto/ClientConnection.cpp:586-595 | When the transport is gone the connection is closed and without a session, and the one it had has been detached |
| Logins.EveryLoginIsProven | src/proto/ClientConnection.cpp:353-429 | Over every run: the world is asked to attach a peer only directly after the lookup of exactly those fields and the preparation of the cipher with exactly the key looked up, and only if the lookup was approved, the digest is the proof for account, client seed, the seed of the challenge this connection sent before, and that key; a session is the one the world gave for that request. And every lookup is followed by all that login deserves: the session if all of this holds, else the refusal with its own status (the lookup's; Failed for a wrong proof; SystemError when the cipher or the world declines) |
| Logins.SessionIsProven | src/proto/ClientConnection.cpp:372-429 | So whenever a connection has a session, some peer proved itself for it, and the session is the one the world gave that peer |
| Logins.LoginIs | src/proto/ClientConnection.cpp:353-429 | For every body that arrives in answer to the challenge: one that does not decode is answered with Failed and no lookup; one that does is looked up, and reaches AttachCalled if and only if it is approved, proven and the cipher prepares; the connection goes on if and only if the world then makes a session of it, and is then authenticated with an active cipher |
| Logins.ChallengeIs | src/proto/ClientConnection.cpp:307-351 | The right greeting, on its own or up to a NUL, is answered with the challenge whose bytes are a header for 39 bytes, two zeros, 32 random bytes, a one and the seed; anything else, or no random bytes, is refused and leaves everything as it was |
| Logins.GreetingIs | src/proto/ClientConnection.cpp:142-160 | The server's greeting is sent under the plain header 48, 0x4F57, with its NUL |
| Logins.PingIs | src/proto/ClientConnection.cpp:439-494 | A ping is reported with its first four bytes as latency and the length of the run of fast pings; if it is accepted the answer carries its next four bytes unchanged under an encrypted header, and the connection closes if that cannot be encrypted |
| Logins.OutOfTurn | src/proto/MopHandshake.h:38-48 | A greeting after the first, a login that was not challenged and any other frame before the peer is in are refused without a trace |
| Logins.OrdinaryIs | src/proto/ClientConnection.cpp:275-300 | Once the peer is in, every ordinary frame reaches its session, unchanged but for the opcode being cut to 16 bits |
| ConnectionCuts.CutsAgreeExactly | src/proto/ClientConnection.cpp:177-224 | Handling a, then b, agrees with handling a + b for all b if and only if there is not, among the frames of a, an accepted ping whose answer header cannot be encrypted, after which the loop runs dry (closed() is looked at only on entry) |
| ConnectionCuts.DrainClosesExactly | src/proto/ClientConnection.cpp:185-224 | A loop that runs dry on an open connection leaves it closed if and only if it has handled such a ping |
| ConnectionCuts.CutsDoNotMatterToConnection | src/proto/ClientConnection.cpp:162-230 | With a cipher that works, any cutting leads to the same connection and trace |
| ConnectionCuts.PingClosesMidway | src/proto/ClientConnection.cpp:490-493 | Concrete case: a ping whose answer cannot be encrypted closes the connection in the middle of the loop |
| PacketStream.SendOne | src/proto/ClientConnection.cpp:92-140 | A packet that can be framed uses four keystream positions and its bytes; one that cannot leaves everything as it was |
| PacketStream.SendAllStreams | src/proto/ClientConnection.cpp:555-575 | The wire after sending a sequence is the stream of its framable packets |
| PacketStream.ReadOne | src/proto/MopFrameReader.h:58-95 | The peer reads the first packet of a stream back and is left with the rest |
| PacketStream.StreamReadBack | src/proto/MopFrameReader.h:58-95 | The peer reads back exactly the framable packets in order and ends at the same keystream position |
| PacketStream.StreamReadUpTo | src/proto/MopFrameReader.h:58-95 | With a payload that is too long among them, the peer reads exactly the framable packets before it |
| PacketStream.SentIsReceived | src/proto/ClientConnection.cpp:92-140 | Sent one after the other, encrypted, cut in any way and read with the matching cipher: the peer receives all framable packets, in order, if and only if none of them has a payload over 10236; otherwise it receives exactly those before the first such packet and then gives up; a dropped opcode does not put later ones out of step |
| PacketStream.LongerIsRefused | src/proto/MopWireCodec.h:107 | A payload of more than 10236 bytes can be sent but the reader refuses it as a bad size |
| PacketStream.KeystreamMatches | src/proto/ClientConnection.cpp:116-130 | Any XOR keystream is such a matching cipher |
| EventObjects.SwitchKeepsExactly | src/game/BattleGround/BattleGroundObjects.cpp:203-235 | SpawnEvent keeps "spawned exactly when its event is active" if and only if it does not consult an event never set (map access makes it 0) in a way that goes wrong |
| EventObjects.SpawnKeeps | src/game/BattleGround/BattleGroundObjects.cpp:203-235 | For a known event: the old one is despawned, the new one spawned, the active one set |
| EventObjects.DespawnKeeps | src/game/BattleGround/BattleGroundObjects.cpp:203-235 | For a known event: the active one is despawned, any other call does nothing |
| EventObjects.LoadKeeps | src/game/BattleGround/BattleGroundObjects.cpp:97-151 | A loaded object is registered under its event and left standing exactly if that is active |
| EventObjects.LoadOwns | src/game/BattleGround/BattleGroundObjects.cpp:97-151 | A loaded object belongs to its event from then on, as those loaded before do, and no event changes |
| EventObjects.EveryRunShowsActive | src/game/BattleGround/BattleGroundObjects.cpp:97-235 | Through any sequence of loads and SpawnEvent calls, recursive despawns included, an object of a prepared event is spawned if and only if its event is active |
| EventObjects.OneEventVisible | src/game/BattleGround/BattleGroundObjects.cpp:203-235 | Of each first event at most one second event is visible |
| EventObjects.UnpreparedRunGoesWrong | src/game/BattleGround/BattleGroundObjects.cpp:207-211 | Concrete failure: spawning event 0 of a first event never set shows nothing |
| EventObjects.BattleGroundEvents.SpawnEvent | src/game/BattleGround/BattleGroundObjects.cpp:203-235 | The recursive method does what the functions say, including the entry the map access creates |
| EventObjects.BattleGroundEvents.SpawnAll | src/game/BattleGround/BattleGroundObjects.cpp:224-234 | All objects of the list change and no others |
| EventObjects.BattleGroundEvents.OnObjectDBLoad | src/game/BattleGround/BattleGroundObjects.cpp:97-151 | An object without an event is left alone; any other is registered under its event and despawned unless that is active; a door loaded while the match runs is opened, so all doors of the active door event stay open |
| EventObjects.BattleGroundEvents.OpenDoorEvent | src/game/BattleGround/BattleGroundObjects.cpp:159-195 | Opens every door of the active door event and nothing else |
| AlteracMatch.EveryMatchInOrder | src/game/BattleGround/BattleGroundAV.cpp:353-1130 | From any state in order, whatever is played before and after the moment a player enters: for every node the node invariant, its banner event is the active one, exactly the objects of that banner are spawned, and the map of the player who entered is what he would be sent now, of its four icons exactly the right one lit |
| AlteracCourse.StandingBannerClicked | src/game/BattleGround/BattleGroundAV.cpp:740-864 | A click on the banner that stands at a node: a team takes a node it neither owns nor holds, so that it is assaulted for that team with 240000 ms on its clock, or 300000 when a neutral node was held by nobody before; the owner of an assaulted node gets it back, controlled; while nobody owns it the teams take it from each other; whoever holds it clicks in vain; no other node, no mine and no quest changes |
| AlteracCourse.ClickIs | src/game/BattleGround/BattleGroundAV.cpp:740-864 | The same for every object of every event, also a banner that has gone meanwhile |
| AlteracCourse.LeftAloneAges | src/game/BattleGround/BattleGroundAV.cpp:387-399 | Whatever else goes on in a match, however time is cut into updates: an assaulted node nobody clicks on is what it was less the time passed, until that reaches its clock, and from that very update on it is controlled by the team that took it; a controlled node stays as it is |
| AlteracCourse.TakenNodeFalls | src/game/BattleGround/BattleGroundAV.cpp:387-399 | So a node taken with a click falls to that team exactly when 240000 or 300000 ms have passed with nobody at its banner |
| AlteracCourse.HeldMineRunsOut | src/game/BattleGround/BattleGroundAV.cpp:362-384 | Whatever else goes on: a mine whose boss lives stays with the team that holds it until the time passed reaches its clock, and is nobody's from that update on |
| AlteracCourse.MineTicks | src/game/BattleGround/BattleGroundAV.cpp:362-384 | One update of one mine: the time on its clock goes down, at the end of it the mine is nobody's; the tick of a held mine starts again at 45000 ms when it has run out or the mine is lost; the other mine is untouched |
| AlteracCourse.BossKilled | src/game/BattleGround/BattleGroundAV.cpp:649-675 | The mine goes to the killers for 1200000 ms, with their boss and creatures active; one that was theirs already only has its tick restarted; nothing else changes |
| AlteracCourse.ScrapsHandedIn | src/game/BattleGround/BattleGroundAV.cpp:187-206 | The team's count goes up by 20; at 500, 1000 and 1500 the active defenders of every graveyard it controls become those of the new tier |
| AlteracCourse.DefendersAre | src/game/BattleGround/BattleGroundAV.cpp:704-737 | The defenders of a graveyard's controller are active in the tier of its scraps; when it is taken, those who stood there are deactivated if and only if the scraps of the team that takes it have got as far, since the tier is looked up under that team |
| AlteracCourse.FallenTower | src/game/BattleGround/BattleGroundAV.cpp:622-627 | When a tower falls its marshal is no longer active |
| AlteracCourse.StartIs | src/game/BattleGround/BattleGroundAV.cpp:1180-1201 | Each team starts with three graveyards and four towers, controlled, and Snowfall is neutral |
| AlteracMatch.FreshOk | src/game/BattleGround/BattleGroundAV.cpp:1138-1202 | A match that has been reset is in order |
| AlteracMatch.EnteredOk | src/game/BattleGround/BattleGroundAV.cpp:875-919 | In any match in order, a player who is sent the snapshot is in step, the first one as any later one |
| AlteracMatch.EnteringChangesNothing | src/game/BattleGround/BattleGroundAV.cpp:353-1130 | Nodes, mines and events take the same course whoever watches, so the match a player enters is the one played all along |
| AlteracMatch.TakeKeeps | src/game/BattleGround/BattleGroundAV.cpp:353-1130 | Every click of either team, boss kill, scrap hand-in and time step keeps nodes, mines, banners, events and maps in order |
| AlteracMatch.Played | src/game/BattleGround/BattleGroundAV.cpp:353-1130 | Every sequence of such steps can be played from any state in order, no assertion standing in the way, and ends with nodes, mines and banners in order and every client, mines included, as a fresh snapshot would have it |
| AlteracMatch.ScrapsKeep | src/game/BattleGround/BattleGroundAV.cpp:189-207 | New defenders after a quest step change no banner |
| AlteracMatch.RepopulatedKeeps | src/game/BattleGround/BattleGroundAV.cpp:200-205 | The loop that renews the defenders of a team's graveyards keeps everything in order and changes no node |
| AlteracValley.NoAssertionFires | src/game/BattleGround/BattleGroundAV.cpp:1051-1130 | Whatever node and team: where the event handlers call assault, defend or destroy, all of those functions' assertions hold |
| AlteracValley.ApplyKeeps | src/game/BattleGround/BattleGroundAV.cpp:1051-1130 | Each step keeps the invariant: controlled means owner = total owner and timer 0; assaulted means a non-neutral owner other than the total owner and a running timer; only Snowfall is ever neutral; the previous owner and state are remembered |
| AlteracValley.PrevIsTotalExactly | src/game/BattleGround/BattleGroundAV.cpp:1051-1130 | Previous owner = total owner (of a node not neutral) after a step if and only if the step is not a defence |
| AlteracValley.DefendedRemembersEnemy | src/game/BattleGround/BattleGroundAV.cpp:1120-1130 | Concrete case: alliance node, assaulted, defended: the previous owner is the horde |
| AlteracValley.DefendsNeverFails | src/game/BattleGround/BattleGroundAV.cpp:775-793 | The "doesn't belong to his team" error cannot occur |
| AlteracValley.ClickKeeps | src/game/BattleGround/BattleGroundAV.cpp:740-864 | Clicking any object of any event, matching the banner or not, keeps everything in order |
| AlteracValley.IconsFollow | src/game/BattleGround/BattleGroundAV.cpp:929-940 | After a node update every client shows what a fresh snapshot would |
| AlteracValley.MineFollows | src/game/BattleGround/BattleGroundAV.cpp:950-959 | After a mine has changed hands every client shows what a fresh snapshot would |
| AlteracValley.OneIconEach | src/game/BattleGround/BattleGroundAV.cpp:875-919 | A client in step has exactly one icon lit for each node, Snowfall's neutral one included |
| AlteracValley.PopulateStays | src/game/BattleGround/BattleGroundAV.cpp:704-737 | Populating a node changes the banner of that node only |
| AlteracValley.ChangeMineKeeps | src/game/BattleGround/BattleGroundAV.cpp:649-677 | A mine changing hands keeps everything in order |
| AlteracValley.TickMineKeeps | src/game/BattleGround/BattleGroundAV.cpp:363-383 | Time passing for a mine keeps everything in order, up to and including the neutral team reclaiming it |
| AlteracValley.TickNodeKeeps | src/game/BattleGround/BattleGroundAV.cpp:386-399 | Time passing for a node keeps everything in order, up to and including its destruction |
| AlteracValley.AssaultsKeep | src/game/BattleGround/BattleGroundAV.cpp:833-864 | An assault by any team on any node, whether the guards let it through or not, keeps everything in order |
| AlteracValley.DefendsKeep | src/game/BattleGround/BattleGroundAV.cpp:775-822 | A defence by any team of any node, on neutral ground an assault, keeps everything in order |
| AlteracValley.DestroyedKeeps | src/game/BattleGround/BattleGroundAV.cpp:609-637 | The end of an assault keeps everything in order, the marshal of a fallen tower despawned |
| BattleGroundsAV.BattleGroundAV.constructor | src/game/BattleGround/BattleGroundAV.cpp:1138-1202 | A match starts with the original owners and everything else clear, fresh and in order |
| BattleGroundsAV.StartMatch | src/game/BattleGround/BattleGroundMgr.cpp:833-925 | A match from its creation: objects are loaded, a first player enters, the battle begins; the match is fresh and valid, and of the objects loaded exactly those of active events stand |
| BattleGroundsAV.BattleGroundAV.OnObjectDBLoad | src/game/BattleGround/BattleGroundObjects.cpp:97-151 | Loading an object keeps the match in order and every client in step; the object belongs to its event from then on |
| BattleGroundsAV.BattleGroundAV.StartingEventOpenDoors | src/game/BattleGround/BattleGround.cpp:571-574 | The battle begins and nothing else changes |
| BattleGroundsAV.BattleGroundAV.Reset | src/game/BattleGround/BattleGroundAV.cpp:1138-1202 | Nodes, mines, quests and the events of a fresh match, which it is as long as no object stands otherwise; a mine's reclaim timer keeps its old value; the active banners and defenders are those of each node's owner, the mines' events nobody's, and every marshal stands (StartActive) |
| BattleGroundsAV.BattleGroundAV.InitNode | src/game/BattleGround/BattleGroundAV.cpp:1094-1109 | One node and its banner and defender events |
| BattleGroundsAV.BattleGroundAV.AssaultNode | src/game/BattleGround/BattleGroundAV.cpp:1051-1063 | Requires what its assertions demand; the node is assaulted and its timer started |
| BattleGroundsAV.BattleGroundAV.DefendNode | src/game/BattleGround/BattleGroundAV.cpp:1120-1130 | Requires what its assertions demand; the node is its owner's again |
| BattleGroundsAV.BattleGroundAV.DestroyNode | src/game/BattleGround/BattleGroundAV.cpp:1073-1082 | Requires what its assertions demand; the node is the assailant's for good |
| BattleGroundsAV.BattleGroundAV.EventPlayerAssaultsPoint | src/game/BattleGround/BattleGroundAV.cpp:833-864 | For any valid match, node and team: valid again and in the specified state |
| BattleGroundsAV.BattleGroundAV.EventPlayerDefendsPoint | src/game/BattleGround/BattleGroundAV.cpp:775-822 | For any valid match, node and team: valid again and in the specified state, the error branch dead |
| BattleGroundsAV.BattleGroundAV.EventPlayerDestroyedPoint | src/game/BattleGround/BattleGroundAV.cpp:609-637 | For any valid match and assaulted node: valid again and in the specified state, marshal gone from a tower |
| BattleGroundsAV.BattleGroundAV.EventPlayerClickedOnFlag | src/game/BattleGround/BattleGroundAV.cpp:740-764 | Nothing outside a running match; otherwise the clicked node is taken, given back or left alone as its owner, its state and the parity of the object say (ClickMeans), and nothing else happens to any node |
| BattleGroundsAV.BattleGroundAV.PopulateNode | src/game/BattleGround/BattleGroundAV.cpp:704-737 | Defenders by quest progress, then the banner |
| BattleGroundsAV.BattleGroundAV.UpdateNodeWorldState | src/game/BattleGround/BattleGroundAV.cpp:929-940 | New icon on, old icon off, the neutral one for a first capture |
| BattleGroundsAV.BattleGroundAV.ChangeMineOwner | src/game/BattleGround/BattleGroundAV.cpp:649-677 | Same owner: only the timer; otherwise owner, reclaim timer, map and events |
| BattleGroundsAV.BattleGroundAV.SendMineWorldStates | src/game/BattleGround/BattleGroundAV.cpp:950-959 | New owner's icon on, previous one's off |
| BattleGroundsAV.BattleGroundAV.HandleScraps | src/game/BattleGround/BattleGroundAV.cpp:189-207 | Twenty more, and new defenders at 500, 1000 and 1500 |
| BattleGroundsAV.BattleGroundAV.HandleKillMineBoss | src/game/BattleGround/BattleGroundAV.cpp:101-156 | The mine goes to the killer's team |
| BattleGroundsAV.BattleGroundAV.Update | src/game/BattleGround/BattleGroundAV.cpp:353-400 | Mines, then nodes in order, and the match stays valid for any time step; every node has aged by the step (NodesAged) |
| BattleGroundsAV.BattleGroundAV.UpdateMine | src/game/BattleGround/BattleGroundAV.cpp:363-383 | Nothing for a neutral mine; otherwise the tick timer restarts when it runs out, and the mine is neutral when the reclaim timer has |
| BattleGroundsAV.BattleGroundAV.UpdateNode | src/game/BattleGround/BattleGroundAV.cpp:388-398 | A controlled node stays, an assaulted one counts down and goes to its assailant when its time is up; the whole state is the specified one |
| BattleGroundsAV.BattleGroundAV.FillInitialWorldStates | src/game/BattleGround/BattleGroundAV.cpp:875-919 | In any match in order, whoever watches, the snapshot shows exactly what is so |
| BattleGroundsAV.BattleGroundAV.SendInitWorldStates | src/game/Object/Player.cpp:3848-3853 | A player who enters a match in order is in step with it from then on |
| ArathiMatch.EveryMatchInStep | src/game/BattleGround/BattleGroundAB.cpp:83-616 | From any state in step, whatever is played before and after the moment a player enters: for every node, banner timer 0 means the active event is the node's status, otherwise the pending banner is; exactly the active event's objects are spawned; and the map of the player who entered is what he would be sent now, exactly the status' icon lit and the two base counters the numbers of occupied nodes |
| ArathiCourse.ClickIs | src/game/BattleGround/BattleGroundAB.cpp:485-616 | A click changes nothing off the nodes, on a banner of the own team or outside the battle; a node the other team has taken from the clicking team is occupied again; any other is contested for 60000 ms; the banner follows after 2000 ms; no other node and no score changes |
| ArathiCourse.LeftAloneAges | src/game/BattleGround/BattleGroundAB.cpp:93-140 | Whatever else goes on while the battle lasts, however time is cut into updates: a contested node nobody clicks on is occupied by the team contesting it exactly from the update in which the time passed reaches its clock; a pending banner is up exactly when its time has passed, unless a capture sets a new one |
| ArathiCourse.UpdateIs | src/game/BattleGround/BattleGroundAB.cpp:83-218 | One update of a running battle: each node ages, then each team is paid for the nodes it occupies by then, and the battle is over if and only if a team has 1600 points |
| ArathiCourse.PointsAre | src/game/BattleGround/BattleGroundAB.cpp:148-193 | With n the number of nodes whose status is team + 3: none leaves points and time alone; otherwise the time is added up, and if it exceeds 12000, 9000, 6000, 3000 or 1000 ms for n = 1 to 5 the team gets 10 points, or 30 with all five, up to 1600, and keeps the time in excess; the other team is untouched |
| ArathiCourse.PaidForTime | src/game/BattleGround/BattleGroundAB.cpp:148-193 | While no node is contested and no update is longer than the interval due, a team is paid exactly for the time that passes: paid time and time on account add up to the time that has passed, after any number of updates |
| ArathiMatch.FreshOk | src/game/BattleGround/BattleGroundAB.cpp:621-650 | A match that has been reset is in order |
| ArathiMatch.EnteredOk | src/game/BattleGround/BattleGroundAB.cpp:368-408 | In any match in step, a player who is sent the snapshot is in step, the first one as any later one |
| ArathiMatch.EnteringChangesNothing | src/game/BattleGround/BattleGroundAB.cpp:83-616 | Nodes, banners, events and scores take the same course whoever watches |
| ArathiMatch.Played | src/game/BattleGround/BattleGroundAB.cpp:83-616 | Every sequence of clicks and time steps can be played from any state in step |
| ArathiMatch.UpdateFollows | src/game/BattleGround/BattleGroundAB.cpp:414-444 | After a node update every client shows what a fresh snapshot would |
| ArathiMatch.ClickKeeps | src/game/BattleGround/BattleGroundAB.cpp:485-616 | A click by either team keeps nodes, banners and maps in step |
| ArathiMatch.TickBannerKeeps | src/game/BattleGround/BattleGroundAB.cpp:93-105 | Time passing for a banner keeps nodes, banners and maps in step: when it is shown it is the node's status |
| ArathiMatch.TickTimerKeeps | src/game/BattleGround/BattleGroundAB.cpp:107-138 | Time passing for a capture timer keeps nodes, banners and maps in step, up to and including the capture |
| ArathiMatch.TickScoreKeeps | src/game/BattleGround/BattleGroundAB.cpp:147-208 | Points for a team keep everything in step, the resources shown included |
| ArathiBasin.ClickedKeeps | src/game/BattleGround/BattleGroundAB.cpp:501-601 | The capture timer runs exactly while the node is contested; a contested node that was occupied was held by the other side |
| ArathiBasin.CapturedKeeps | src/game/BattleGround/BattleGroundAB.cpp:116-122 | A contested node whose time is up belongs to the side that contested it |
| ArathiBasin.DefendingRestores | src/game/BattleGround/BattleGroundAB.cpp:535-589 | Clicking a contested node that was occupied gives it back to exactly its former owner, who is the one clicking; any other click contests it for the clicker |
| ArathiBasin.SamePlace | src/game/BattleGround/BattleGroundAB.cpp:368-444 | No world-state number stands for two things |
| BattleGroundsAB.BattleGroundAB.Reset | src/game/BattleGround/BattleGroundAB.cpp:621-650 | All nodes neutral and their events set: a fresh match as long as no object stands otherwise; a stale pending banner is harmless |
| BattleGroundsAB.BattleGroundAB.constructor | src/game/BattleGround/BattleGroundMgr.cpp:853-913 | A new match is fresh and in order |
| BattleGroundsAB.BattleGroundAB.OnObjectDBLoad | src/game/BattleGround/BattleGroundObjects.cpp:97-151 | Loading an object keeps the match in order and every client in step; the object belongs to its event from then on |
| BattleGroundsAB.BattleGroundAB.StartingEventOpenDoors | src/game/BattleGround/BattleGround.cpp:571-574 | The battle begins and every client stays in step |
| BattleGroundsAB.StartMatch | src/game/BattleGround/BattleGroundMgr.cpp:833-925 | A match from its creation: objects are loaded, a first player enters, the battle begins; the match is fresh and valid, and of the objects loaded exactly those of active events stand |
| BattleGroundsAB.BattleGroundAB.SendInitWorldStates | src/game/Object/Player.cpp:3860-3865 | A player who enters a match in order is in step with it from then on |
| BattleGroundsAB.BattleGroundAB.CreateBanner | src/game/BattleGround/BattleGroundAB.cpp:314-333 | Queues the banner for two seconds, or shows it |
| BattleGroundsAB.BattleGroundAB.CountBases | src/game/BattleGround/BattleGroundAB.cpp:430-440 | The loop counts each side's occupied nodes |
| BattleGroundsAB.BattleGroundAB.SendNodeUpdate | src/game/BattleGround/BattleGroundAB.cpp:414-444 | Old icon off, new icon on, both counters |
| BattleGroundsAB.BattleGroundAB.EventPlayerClickedOnFlag | src/game/BattleGround/BattleGroundAB.cpp:485-616 | A click on no node or on a team's own banner changes nothing; any other contests the node or gives it back (ClickMeans), and the match stays in step |
| BattleGroundsAB.BattleGroundAB.ChangeNode | src/game/BattleGround/BattleGroundAB.cpp:513-601 | Neutral, contested before occupied, contested otherwise, occupied: the four branches leave status, previous status, timer and pending banner as specified |
| BattleGroundsAB.BattleGroundAB.Update | src/game/BattleGround/BattleGroundAB.cpp:83-220 | Banners and timers of all nodes, points of both teams, end at the maximum; stays valid for any time step; nodes aged, both teams paid for the nodes they occupy by then (UpdateMeans) |
| BattleGroundsAB.BattleGroundAB.UpdateBanner | src/game/BattleGround/BattleGroundAB.cpp:93-105 | A pending banner counts down and is shown when its time is up |
| BattleGroundsAB.BattleGroundAB.UpdateTimer | src/game/BattleGround/BattleGroundAB.cpp:107-138 | A contested node counts down; when its time is up it is occupied, its new banner pending and the map updated |
| BattleGroundsAB.BattleGroundAB.AddPoints | src/game/BattleGround/BattleGroundAB.cpp:148-207 | The team is paid for the nodes it occupies and the other is not (PointsAdded): the interval, the points, the cap and the time carried over are stated by numbers |
| BattleGroundsAB.BattleGroundAB.FillInitialWorldStates | src/game/BattleGround/BattleGroundAB.cpp:368-408 | In any match in order, whoever watches, the snapshot shows exactly what is so: icons, base counts, resources and limits |
| ConditionRun.ConversionIsRight | contrib/convertConditions/ConvertConditions.py:79-314 | After the four phases over any rows, starting from any well-formed table: ids are dense, an AND refers only to smaller ids, no condition and no unordered AND pair is stored twice, every row with a condition has exactly one update, and under every truth assignment its id means the conjunction of the row's positive conditions |
| ConditionRun.OldEntriesStay | contrib/convertConditions/ConvertConditions.py:236-249 | Entries loaded from an earlier conversion keep their ids and their meaning |
| ConditionRun.StoringPhase | contrib/convertConditions/ConvertConditions.py:137-145 | After the first phase every row's conditions are in the table and nothing is updated |
| ConditionRun.CompileRow | contrib/convertConditions/ConvertConditions.py:148-221 | A row of the current size gets its update, with no "not found" error, and nothing said before is lost |
| ConditionRun.CompilePhase | contrib/convertConditions/ConvertConditions.py:95-221 | After any number of rows of a phase, exactly the rows done so far have their one update, each meaning its row |
| ConditionRun.PhasesCompile | contrib/convertConditions/ConvertConditions.py:309-314 | After any number of phases, exactly the rows with fewer conditions than the next phase have their one update |
| Conditions.FindMeans | contrib/convertConditions/ConvertConditions.py:72-76 | The search returns an entry with the condition, or 0 if and only if there is none |
| Conditions.AddKeeps | contrib/convertConditions/ConvertConditions.py:64-67 | A condition not yet stored, in either order, may be added |
| Conditions.HoldsStays | contrib/convertConditions/ConvertConditions.py:64-67 | Growing the table changes no entry's meaning |
| Conditions.PairMeans | contrib/convertConditions/ConvertConditions.py:204-212 | The entry found or added means both conditions |
| Conditions.PairSpares | contrib/convertConditions/ConvertConditions.py:204-212 | Two conditions: an entry is added if and only if no stored one joins them, in either order; otherwise that one is used |
| Conditions.TripleMeans | contrib/convertConditions/ConvertConditions.py:173-201 | Whatever pairs are already stored, the entry found or added means all three conditions |
| Conditions.TripleSpares | contrib/convertConditions/ConvertConditions.py:173-201 | Three conditions: nothing is added if any two of them are joined and that entry with the third, in any order; one entry if two are joined but with no third; two entries if no two are joined |
| Conditions.AddedJoins | contrib/convertConditions/ConvertConditions.py:186-188 | A new AND means its two entries |
| Conditions.OrderedMeans | contrib/convertConditions/ConvertConditions.py:113-129 | Ordering a row moves its positive conditions to the front and keeps their conjunction |
| Conditions.OrderedSorts | contrib/convertConditions/ConvertConditions.py:113-120 | Ordering puts the largest first: by type, then first value, then second |
| Conditions.StoreKeeps | contrib/convertConditions/ConvertConditions.py:137-145 | Storing a row's conditions adds only what is missing |
| Conditions.StoreSpares | contrib/convertConditions/ConvertConditions.py:137-145 | Every entry added is a condition of the row |
| Conditions.EmitMeans | contrib/convertConditions/ConvertConditions.py:152-221 | The id emitted for a stored row means the row |
| ConditionRun.Converter.LoadOldConditions | contrib/convertConditions/ConvertConditions.py:236-249 | Old entries are appended in the order in which they are read |
| ConditionRun.Converter.InsertCondition | contrib/convertConditions/ConvertConditions.py:64-67 | Appends under the next number, which stays the table's length |
| ConditionRun.Converter.FindCondition | contrib/convertConditions/ConvertConditions.py:72-76 | The loop returns the first matching entry's number |
| ConditionRun.Converter.LinkPair | contrib/convertConditions/ConvertConditions.py:204-212 | The AND of the two entries, found in either order or appended, and its number |
| ConditionRun.Converter.LinkTriple | contrib/convertConditions/ConvertConditions.py:173-201 | Stored pairs are looked for in all three ways and both orders, one is appended if there is none, and the first pair that already has its third entry joined gives the number, otherwise the join is appended |
| ConditionRun.Converter.ProgressRow | contrib/convertConditions/ConvertConditions.py:95-221 | Orders and counts the row's conditions; phase 0 stores them, the phase of that count appends the one update, any other phase leaves the row alone |
| ConditionRun.Converter.ProgressTables | contrib/convertConditions/ConvertConditions.py:80-221 | All rows in order, those of tables with fewer condition columns than the phase left out |
| ConditionRun.Converter.Run | contrib/convertConditions/ConvertConditions.py:309-314 | The four phases: the result is the one ConversionIsRight speaks of |

## Left out

Contracts that say less than the whole:

- Ledger.EveryRunKeepsTheBooks: its steps are those the callers allow: members not yet queued, invited while online, and free slots for the whole group; AddGroupKeepsExactly and InviteCountsOnlineExactly say exactly what happens outside the first two. A player who accepts and never arrives stays counted.
- BattleGroundQueues.StartingTheMatch: for teams whose members are all online.
- Matching.CheckNormalMatch: needs at least one player per team as the minimum, as the increment after the loop in the code does.
- ConnectionCuts.CutsDoNotMatterToConnection: assumes that the cipher never fails; CutsAgreeExactly has no such assumption.
- ConnectionSafety.EveryRunIsSafe: what the world does to a connection happens between two calls of OnData, never between two frames of one call.
- EventObjects.EveryRunShowsActive: only first events that Reset has set are switched; SwitchKeepsExactly says what happens otherwise.
- EventObjects.BattleGroundEvents.OnObjectDBLoad: one method for creatures and game objects.
- AlteracMatch.EveryMatchInOrder: which tier of a graveyard's defenders stands is said for each change of the node (`AlteracCourse.DefendersAre`), not over whole matches.
- ArathiMatch.EveryMatchInStep: ending the match only stops it from running.
- BattleGrounds.BattleGround.AddPlayer: the player list only, since the count of players for each team tests membership after inserting.
- ConditionRun.Converter.LoadOldConditions: the table read must be numbered without gaps; the code says so too and goes on.
- BattleGrounds.BattleGroundMgr.GetBattleGround: battlegrounds are kept by instance number alone, which is unique across types.

Not modelled:

- The dispatch in `BattleGroundQueue::Update` between its parts: configuration, arena testing, the bracket table, the list of battlegrounds with free slots, creating and starting a battleground, and the rating window and discard time, which are parameters.
- Concurrent senders: encryption is locked, handing the bytes to the transport is not, so order on the wire is claimed for sends one after the other.
- A packet sent by the world from inside attaching, before the connection knows its session.
- OpenSSL, SHA-1 and ARC4: the proof and the cipher are arbitrary functions, and the key the cipher is prepared with is an entry of the trace.
- Per-team player counts, premature finish and arena win checks.
- `CreateClientVisibleInstanceId`, and queue updates beyond 255 scheduled entries.
- Packets, chat, sounds, logs, the queue announcers, auras, spells, honour, reputation, scores of single players, and the removal of a player's group and queue status.
- Reminders and removals of invitations as timed events: a removal is the step of leaving the queue.
- Alterac Valley's team scores, captains, generals and the score world states; Arathi Basin's honour and reputation ticks and the 500-point flag.
- 32-bit wrap of battleground timers and of Arathi Basin's tick accumulators.
- The databases the condition compiler reads and the dump it writes at the end.
- Eye of the Storm, the remote-administration sessions and the auction bot.
