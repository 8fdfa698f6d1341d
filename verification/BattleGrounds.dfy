/** A battleground's own side of the books (src/game/BattleGround/BattleGround.cpp and .h) and the
    manager that knows them all (BattleGroundMgr.cpp). `Snapshot` is the value Ledger reasons about. */
module BattleGrounds {
  import opened QueueModel
  import opened Ledger

  datatype Status = NONE | WAIT_QUEUE | WAIT_JOIN | IN_PROGRESS | WAIT_LEAVE

  class BattleGround {
    const instanceId: nat
    const typeId: nat
    const bracketId: nat
    const maxPlayersPerTeam: Word
    var status: Status
    var invitedAlliance: Word
    var invitedHorde: Word
    var players: map<Guid, Team>

    ghost function Snapshot(): Roster
      reads this
    {
      Roster(typeId, maxPlayersPerTeam, invitedAlliance, invitedHorde, players)
    }

    constructor (instanceId: nat, typeId: nat, bracketId: nat, maxPlayersPerTeam: Word)
      ensures this.instanceId == instanceId && this.typeId == typeId && this.bracketId == bracketId
      ensures status == WAIT_JOIN && Snapshot() == Roster(typeId, maxPlayersPerTeam, 0, 0, map[])
    {
      this.instanceId, this.typeId, this.bracketId, this.maxPlayersPerTeam := instanceId, typeId, bracketId, maxPlayersPerTeam;
      status, invitedAlliance, invitedHorde, players := WAIT_JOIN, 0, 0, map[];
    }

    method IncreaseInvitedCount(t: Team)
      modifies `invitedAlliance, `invitedHorde
      ensures Snapshot() == old(Snapshot()).Increase(t)
    {
      if t == ALLIANCE {
        invitedAlliance := (invitedAlliance + 1) % WORD;
      } else {
        invitedHorde := (invitedHorde + 1) % WORD;
      }
    }

    method DecreaseInvitedCount(t: Team)
      modifies `invitedAlliance, `invitedHorde
      ensures Snapshot() == old(Snapshot()).Decrease(t)
    {
      if t == ALLIANCE {
        invitedAlliance := (invitedAlliance + WORD - 1) % WORD;
      } else {
        invitedHorde := (invitedHorde + WORD - 1) % WORD;
      }
    }

    function GetInvitedCount(t: Team): (n: nat)
      reads this
      ensures n == Snapshot().Invited(t)
    {
      if t == ALLIANCE then invitedAlliance else invitedHorde
    }

    /** There are free places only while players may still come in. */
    method GetFreeSlotsForTeam(t: Team) returns (n: nat)
      ensures n == if status == WAIT_JOIN || status == IN_PROGRESS then Snapshot().FreeSlots(t) else 0
      ensures (status == WAIT_JOIN || status == IN_PROGRESS) && GetInvitedCount(t) <= maxPlayersPerTeam ==>
                GetInvitedCount(t) + n == maxPlayersPerTeam
      ensures (status != WAIT_JOIN && status != IN_PROGRESS) || GetInvitedCount(t) > maxPlayersPerTeam ==> n == 0
    {
      if status == WAIT_JOIN || status == IN_PROGRESS {
        return if GetInvitedCount(t) < maxPlayersPerTeam then maxPlayersPerTeam - GetInvitedCount(t) else 0;
      }
      return 0;
    }

    method AddPlayer(guid: Guid, t: Team)
      modifies `players
      ensures Snapshot() == old(Snapshot()).Enter(guid, t)
    {
      players := players[guid := t];
    }

    /** Only who took part gives back his place. */
    method RemovePlayerAtLeave(guid: Guid)
      modifies this
      ensures Snapshot() == old(Snapshot()).Leave(guid) && status == old(status)
    {
      var participant := false;
      var team := ALLIANCE;
      if guid in players {
        team := players[guid];
        players := players - {guid};
        participant := true;
      }
      if participant {
        DecreaseInvitedCount(team);
      }
    }

    /** Whether Update deletes the battleground: nobody inside and nobody invited. */
    method IsAbandoned() returns (b: bool)
      ensures b <==> players == map[] && Snapshot().Invited(ALLIANCE) == 0 && Snapshot().Invited(HORDE) == 0
    {
      if players == map[] {
        return GetInvitedCount(HORDE) == 0 && GetInvitedCount(ALLIANCE) == 0;
      }
      return false;
    }
  }

  class BattleGroundMgr {
    var battlegrounds: map<nat, BattleGround>

    ghost predicate Valid()
      reads this
    {
      0 !in battlegrounds && forall b :: b in battlegrounds ==> battlegrounds[b].instanceId == b
    }

    ghost function Rosters(): map<nat, Roster>
      reads this, battlegrounds.Values
    {
      map b | b in battlegrounds :: battlegrounds[b].Snapshot()
    }

    constructor ()
      ensures Valid() && battlegrounds == map[]
    {
      battlegrounds := map[];
    }

    /** Searches among the battlegrounds of one type, or among all of them when that is 0. */
    method GetBattleGround(instance: nat, typeId: nat) returns (bg: BattleGround?)
      requires Valid()
      ensures bg != null <==> instance in battlegrounds && (typeId == 0 || battlegrounds[instance].typeId == typeId)
      ensures bg != null ==> bg == battlegrounds[instance]
    {
      if instance in battlegrounds && (typeId == 0 || battlegrounds[instance].typeId == typeId) {
        return battlegrounds[instance];
      }
      return null;
    }

    /** Gives back the place of a player who was invited. */
    method GiveBackPlace(instance: nat, typeId: nat, t: Team)
      requires Valid()
      modifies battlegrounds.Values
      ensures Valid()
      ensures Rosters() == if instance in battlegrounds && (typeId == 0 || battlegrounds[instance].typeId == typeId)
                           then old(Rosters())[instance := old(Rosters())[instance].Decrease(t)] else old(Rosters())
    {
      hide Ledger.Roster.Decrease;
      var bg := GetBattleGround(instance, typeId);
      if bg != null {
        bg.DecreaseInvitedCount(t);
        assert forall b :: b in battlegrounds && b != instance ==> battlegrounds[b] != bg;
      }
    }
  }
}
