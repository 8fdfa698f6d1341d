/** Whole runs of the queue: joining, leaving, inviting to any instance, demoting, changing sides and
    starting rated matches, in any order (src/game/BattleGround/BattleGroundQueue.cpp). */
module QueueRuns {
  import opened QueueModel
  import RatedMatches

  datatype Step =
    | Joins(g: GroupRef, info: GroupQueueInfo, slot: nat)
    | Leaves(p: Guid)
    | Invites(g: GroupRef, instance: nat, removeTime: nat)
    | Demotes(g: GroupRef, from: nat, to: nat)
    | SwitchesSide(g: GroupRef, side: Team, from: nat, to: nat)
    | Starts(teams: RatedMatches.Pairing, bracket: nat, instance: nat, removeTime: nat)

  /** What the code that takes the step looks at: a joining group is new, has members, and joins a list
      of its team; a leaving player is queued; a group that moves stands where it is taken from. Nothing
      is said about who the joining members are. */
  ghost predicate Possible(q: Queue, s: Step) {
    match s
    case Joins(g, info, slot) => g !in q.groups && info.players != {} && slot < LISTS && slot % 2 == TeamIndex(info.groupTeam)
    case Leaves(p) => p in q.players && q.players[p] in q.groups
    case Invites(g, _, _) => g in q.groups
    case Demotes(g, from, to) => from < LISTS && to < LISTS && from != to && from % 2 == to % 2 && At(q, from, g)
    case SwitchesSide(g, side, from, to) =>
      from < LISTS && to < LISTS && from != to && to % 2 == TeamIndex(side) && At(q, from, g) && g in q.groups
    case Starts(p, bracket, _, _) =>
      && bracket < BRACKETS && p.ali != p.horde
      && RatedMatches.InPremade(q, p.ali, bracket) && RatedMatches.InPremade(q, p.horde, bracket)
      && q.groups[p.ali].invitedTo == 0 && q.groups[p.horde].invitedTo == 0
  }

  ghost function Take(q: Queue, s: Step): Queue
    requires Possible(q, s)
  {
    match s
    case Joins(g, info, slot) => AddGroup(q, g, info, slot)
    case Leaves(p) => RemovePlayer(q, p)
    case Invites(g, instance, time) => Invite(q, g, q.groups[g].groupTeam, instance, time)
    case Demotes(g, from, to) => MoveToFront(q, g, from, to)
    case SwitchesSide(g, side, from, to) => MoveToFront(SetTeam(q, g, side), g, from, to)
    case Starts(p, bracket, instance, time) => RatedMatches.Started(q, p, bracket, instance, time)
  }

  /** The queues a run goes through. */
  ghost predicate IsRun(qs: seq<Queue>, steps: seq<Step>) {
    && |qs| == |steps| + 1 && qs[0] == EMPTY_QUEUE
    && forall i :: 0 <= i < |steps| ==> Possible(qs[i], steps[i]) && qs[i + 1] == Take(qs[i], steps[i])
  }

  /** Nobody joins who is queued already. */
  ghost predicate JoinsOnce(q: Queue, s: Step) {
    s.Joins? ==> s.info.players !! q.players.Keys
  }

  lemma TakeKeepsExactly(q: Queue, s: Step)
    requires Inv(q) && Possible(q, s)
    ensures Inv(Take(q, s)) <==> JoinsOnce(q, s)
  {
    hide Inv;
    match s
    case Joins(g, info, slot) => AddGroupKeepsExactly(q, g, info, slot);
    case Leaves(p) => RemovePlayerKeeps(q, p);
    case Invites(g, instance, time) => InviteKeeps(q, g, q.groups[g].groupTeam, instance, time);
    case Demotes(g, from, to) => DemoteKeeps(q, g, from, to);
    case SwitchesSide(g, side, from, to) => SwitchSideKeeps(q, g, side, from, to);
    case Starts(p, bracket, instance, time) => RatedMatches.StartedKeeps(q, p, bracket, instance, time);
    hide *;
  }

  /** At every moment of a run every queued player belongs to exactly one group, every group has
      members and stands in exactly one list of its team, if and only if nobody has joined who was
      queued already. */
  lemma EveryRunInOrderExactly(qs: seq<Queue>, steps: seq<Step>)
    requires IsRun(qs, steps)
    ensures (forall i :: 0 <= i < |qs| ==> Inv(qs[i])) <==> (forall i :: 0 <= i < |steps| ==> JoinsOnce(qs[i], steps[i]))
  {
    if forall i :: 0 <= i < |steps| ==> JoinsOnce(qs[i], steps[i]) {
      forall i | 0 <= i < |qs| ensures Inv(qs[i]) { RunKeeps(qs, steps, i); }
    }
    if forall i :: 0 <= i < |qs| ==> Inv(qs[i]) {
      forall i | 0 <= i < |steps| ensures JoinsOnce(qs[i], steps[i]) {
        assert Inv(qs[i]) && Inv(qs[i + 1]);
        TakeKeepsExactly(qs[i], steps[i]);
      }
    }
  }

  lemma {:induction false} RunKeeps(qs: seq<Queue>, steps: seq<Step>, i: nat)
    requires IsRun(qs, steps) && i < |qs| && forall k :: 0 <= k < i ==> JoinsOnce(qs[k], steps[k])
    ensures Inv(qs[i])
  {
    if i == 0 {
      EmptyInv();
    } else {
      RunKeeps(qs, steps, i - 1);
      TakeKeepsExactly(qs[i - 1], steps[i - 1]);
    }
  }

  /** So a player who leaves is always found, in his group and the group in a list. */
  lemma LeaverIsFound(qs: seq<Queue>, steps: seq<Step>, i: nat, p: Guid)
    requires IsRun(qs, steps) && i < |qs| && p in qs[i].players && forall k :: 0 <= k < i ==> JoinsOnce(qs[k], steps[k])
    ensures qs[i].players[p] in qs[i].groups && p in qs[i].groups[qs[i].players[p]].players
    ensures exists s: nat :: At(qs[i], s, qs[i].players[p])
  {
    RunKeeps(qs, steps, i);
    assert Listed(qs[i], qs[i].players[p]);
  }

  /** What CanJoinBattleGroundQueue looks at: nobody in the group may be queued, but a group that is too
      large is let through before that is asked. */
  predicate LetThrough(q: Queue, members: set<Guid>, maxGroupSize: nat) {
    |members| > maxGroupSize || members !! q.players.Keys
  }

  /** So only the joining of a group that is too large can put the queue out of order. */
  lemma OnlyLargeGroupsGoWrong(q: Queue, s: Step, maxGroupSize: nat)
    requires Inv(q) && Possible(q, s) && (s.Joins? ==> LetThrough(q, s.info.players, maxGroupSize))
    ensures Inv(Take(q, s)) || (s.Joins? && |s.info.players| > maxGroupSize)
  {
    TakeKeepsExactly(q, s);
  }

  /** And it does, whatever the limit is: a player alone in the queue joins again with a group one too
      large. His old group keeps listing him, but he belongs to the new one. */
  lemma JoiningTwiceGoesWrong(maxGroupSize: nat)
    ensures var first, again := Joins(1, Crowd(0), 2), Joins(2, Crowd(maxGroupSize), 2);
            && Possible(EMPTY_QUEUE, first) && LetThrough(EMPTY_QUEUE, first.info.players, maxGroupSize)
            && var q := Take(EMPTY_QUEUE, first);
            && Possible(q, again) && LetThrough(q, again.info.players, maxGroupSize)
            && Inv(q) && !Inv(Take(q, again))
  {
    var q := AddGroup(EMPTY_QUEUE, 1, Crowd(0), 2);
    EmptyInv();
    hide Members;
    assert q.groups.Keys == {1} && 7 in q.players.Keys;
    hide Inv, AddGroup;
    AddGroupKeepsExactly(EMPTY_QUEUE, 1, Crowd(0), 2);
    AddGroupKeepsExactly(q, 2, Crowd(maxGroupSize), 2);
  }

  function Crowd(n: nat): GroupQueueInfo {
    GroupQueueInfo(Members(n), ALLIANCE, 1, false, 0, 0, 0, 0, 0, 0)
  }

  /** Player 7 and n others. */
  function Members(n: nat): (members: set<Guid>)
    ensures 7 in members && |members| == n + 1 && forall p :: p in members ==> p <= 7 + n
  {
    if n == 0 then {7} else Members(n - 1) + {7 + n}
  }
}
