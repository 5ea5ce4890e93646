/**
 * A running minigame instance (Minigame) and its membership guards: a player
 * joins at most once, not while the manager reports them in some game, and
 * not when the join event is cancelled; leaving is a no-op for non-members.
 */
module Minigames {
  import opened Seqs
  import opened MinigameIDs
  import Arenas

  /** Players are opaque identities. */
  datatype Player = Player(uuid: nat)

  /** What addPlayer did: the two exceptions, a cancelled join, or a join. */
  datatype JoinOutcome = Joined | JoinCancelled | AlreadyInThis | AlreadyInOther

  class Minigame {
    const id: MinigameID
    const arena: Arenas.Arena
    const instanced: bool
    var players: seq<Player>

    /** createInstance followed by init: the identifier, arena and instancing flag the manager hands over. */
    constructor (id: MinigameID, arena: Arenas.Arena, instanced: bool)
      ensures this.id == id && this.arena == arena && this.instanced == instanced && players == []
    {
      this.id := id;
      this.arena := arena;
      this.instanced := instanced;
      players := [];
    }

    ghost predicate Valid()
      reads this
    {
      NoDup(players)
    }

    function GetSize(): nat
      reads this
    {
      |players|
    }

    /**
     * addPlayer. `inSomeGame` is the manager's answer to "is this player in
     * an active minigame?" and `cancelled` the outcome of the join event.
     * Every path but the successful one leaves the player list as it was;
     * the successful one appends the player once.
     */
    method AddPlayer(player: Player, inSomeGame: bool, cancelled: bool) returns (outcome: JoinOutcome)
      requires Valid()
      modifies this
      ensures Valid()
      ensures outcome == (if player in old(players) then AlreadyInThis
                          else if inSomeGame then AlreadyInOther
                          else if cancelled then JoinCancelled
                          else Joined)
      ensures players == if outcome == Joined then old(players) + [player] else old(players)
    {
      if player in players {
        return AlreadyInThis;
      }
      if inSomeGame {
        return AlreadyInOther;
      }
      if cancelled {
        return JoinCancelled;
      }
      AppendNoDup(players, player);
      players := players + [player];
      return Joined;
    }

    /**
     * removePlayer: nothing for a non-member; otherwise the player is removed
     * and then the leave event is raised (`left`).
     */
    method RemovePlayer(player: Player) returns (left: bool)
      requires Valid()
      modifies this
      ensures Valid()
      ensures left == (player in old(players))
      ensures players == RemoveFirst(old(players), player)
      ensures player !in players
      ensures forall q :: q != player ==> (q in players <==> q in old(players))
    {
      RemoveFirstSpec(players, player);
      RemoveFirstNoDup(players, player);
      if player !in players {
        return false;
      }
      players := RemoveFirst(players, player);
      return true;
    }

    /** The quit handler: a server quit removes the player. */
    method OnPlayerQuit(player: Player)
      requires Valid()
      modifies this
      ensures Valid()
      ensures players == RemoveFirst(old(players), player) && player !in players
    {
      var _ := RemovePlayer(player);
    }
  }
}
