/**
 * The session registry (MinigameManager) and its per-type wait lists
 * (VirtualLobby).
 *
 * The manager keeps the registered minigame types (factories), the active
 * minigame instances and one lobby per instanced type. A new instance gets
 * the registration index of its factory as type number and the smallest
 * instance number no active instance of that type uses. A lobby is a
 * duplicate-free first-in-first-out list of waiting players; once it holds
 * at least the type's minimum it starts an instance and moves players from
 * its front into it, up to the type's maximum.
 *
 * The manager invariant (Valid) collects what these operations keep: the
 * active instances are distinct and no two share a (type number, instance
 * number) pair, no player is in two active instances, no list holds a player
 * twice, and every lobby belongs to this manager and holds the factory
 * registered under its name.
 */
module Sessions {
  import opened Seqs
  import opened MinigameIDs
  import opened Minigames
  import Arenas

  /** The configuration a minigame type registers with. */
  datatype Factory = Factory(name: string, instanced: bool, minPlayers: int, maxPlayers: int)

  // ---------------------------------------------------------------------
  // Read-only scans
  // ---------------------------------------------------------------------

  /** Index of the first factory registered under a name, |types| when there is none. */
  function FactoryIndex(types: seq<Factory>, name: string): (i: nat)
    ensures i <= |types|
    ensures i < |types| ==> types[i].name == name
    ensures forall j :: 0 <= j < i ==> types[j].name != name
  {
    if types == [] then 0 else if types[0].name == name then 0 else 1 + FactoryIndex(types[1..], name)
  }

  /** getMinigameFactory: the first factory registered under the name. */
  function GetMinigameFactory(types: seq<Factory>, name: string): (r: Option<Factory>)
    ensures r.None? <==> forall f :: f in types ==> f.name != name
    ensures r.Some? ==> r.value in types && r.value.name == name
  {
    var i := FactoryIndex(types, name);
    if i < |types| then Some(types[i]) else None
  }

  /** The type number generateID computes, the index of the factory found by name, is the index of the first factory with that name. */
  lemma TypeNumber(types: seq<Factory>, name: string)
    requires GetMinigameFactory(types, name).Some?
    ensures IndexOf(types, GetMinigameFactory(types, name).value) == FactoryIndex(types, name)
  {
    var k := FactoryIndex(types, name);
    var i := IndexOf(types, types[k]);
    assert i <= k;
    assert types[i].name == name;
  }

  /** Registering another factory never changes which factory a name finds, once it finds one. */
  lemma FactoryAppend(types: seq<Factory>, f: Factory, name: string)
    ensures GetMinigameFactory(types + [f], name)
            == if GetMinigameFactory(types, name).Some? then GetMinigameFactory(types, name)
               else if f.name == name then Some(f) else None
  {
    var s := types + [f];
    var k := FactoryIndex(types, name);
    var i := FactoryIndex(s, name);
    if k < |types| {
      assert s[k] == types[k];
      assert i <= k;
      assert i == k;
    } else {
      assert forall j :: 0 <= j < |types| ==> s[j].name != name by {
        forall j | 0 <= j < |types|
          ensures s[j].name != name
        {
          assert s[j] == types[j];
        }
      }
      assert i >= |types|;
    }
  }

  /** findMinigame: an active instance with the given type and instance numbers. */
  function FindMinigame(games: seq<Minigame>, typeID: int, instanceID: int): (r: Option<Minigame>)
    ensures r.None? <==> forall m :: m in games ==> m.id.typeID != typeID || m.id.instanceID != instanceID
    ensures r.Some? ==> r.value in games && r.value.id.typeID == typeID && r.value.id.instanceID == instanceID
  {
    if games == [] then None
    else if games[0].id.typeID == typeID && games[0].id.instanceID == instanceID then Some(games[0])
    else FindMinigame(games[1..], typeID, instanceID)
  }

  /** getCurrentMinigame: the first active instance whose players include the player. */
  function CurrentMinigame(games: seq<Minigame>, player: Player): (r: Option<Minigame>)
    reads games
    ensures r.None? <==> forall m :: m in games ==> player !in m.players
    ensures r.Some? ==> r.value in games && player in r.value.players
    ensures r.Some? ==> exists i :: 0 <= i < |games| && games[i] == r.value && forall j :: 0 <= j < i ==> player !in games[j].players
  {
    if games == [] then None
    else if player in games[0].players then Some(games[0])
    else
      var r := CurrentMinigame(games[1..], player);
      assert r.Some? ==> exists i :: 1 <= i < |games| && games[i] == r.value && forall j :: 1 <= j < i ==> player !in games[j].players by {
        if r.Some? {
          var i :| 0 <= i < |games[1..]| && games[1..][i] == r.value && forall j :: 0 <= j < i ==> player !in games[1..][j].players;
          assert games[i + 1] == r.value;
          forall j | 1 <= j < i + 1
            ensures player !in games[j].players
          {
            assert games[j] == games[1..][j - 1];
          }
        }
      }
      r
  }

  /** findActiveMinigame: the first active instance of the named type. */
  function FindActiveMinigame(games: seq<Minigame>, name: string): (r: Option<Minigame>)
    ensures r.None? <==> forall m :: m in games ==> m.id.minigameType != name
    ensures r.Some? ==> r.value in games && r.value.id.minigameType == name
    ensures r.Some? ==> forall j :: 0 <= j < IndexOf(games, r.value) ==> games[j].id.minigameType != name
  {
    if games == [] then None
    else if games[0].id.minigameType == name then Some(games[0])
    else FindActiveMinigame(games[1..], name)
  }

  /** getLobby: the first lobby of the named type. */
  function GetLobby(lobbies: seq<VirtualLobby>, name: string): (r: Option<VirtualLobby>)
    ensures r.None? <==> forall l :: l in lobbies ==> l.minigameName != name
    ensures r.Some? ==> r.value in lobbies && r.value.minigameName == name
    ensures r.Some? ==> forall j :: 0 <= j < IndexOf(lobbies, r.value) ==> lobbies[j].minigameName != name
  {
    if lobbies == [] then None
    else if lobbies[0].minigameName == name then Some(lobbies[0])
    else GetLobby(lobbies[1..], name)
  }

  // ---------------------------------------------------------------------
  // Instance numbers
  // ---------------------------------------------------------------------

  /** No two distinct active instances share a (type number, instance number) pair. */
  ghost predicate UniquePairs(games: seq<Minigame>)
  {
    forall a, b :: a in games && b in games && a != b ==> a.id.typeID != b.id.typeID || a.id.instanceID != b.id.instanceID
  }

  /** k is the smallest non-negative instance number of the type that no active instance uses. */
  ghost predicate SmallestFree(games: seq<Minigame>, typeID: int, k: int)
  {
    k >= 0 && FindMinigame(games, typeID, k).None?
    && forall j :: 0 <= j < k ==> FindMinigame(games, typeID, j).Some?
  }

  /** There is only one smallest free instance number. */
  lemma SmallestFreeUnique(games: seq<Minigame>, typeID: int, k1: int, k2: int)
    requires SmallestFree(games, typeID, k1) && SmallestFree(games, typeID, k2)
    ensures k1 == k2
  {
  }

  /** Adding an instance whose pair is free keeps the pairs unique. */
  lemma AddFreePair(games: seq<Minigame>, m: Minigame)
    requires UniquePairs(games)
    requires FindMinigame(games, m.id.typeID, m.id.instanceID).None?
    ensures UniquePairs(games + [m])
  {
  }

  /** Ending an instance frees its pair. */
  lemma EndFreesPair(games: seq<Minigame>, g: Minigame)
    requires NoDup(games) && UniquePairs(games) && g in games
    ensures FindMinigame(RemoveFirst(games, g), g.id.typeID, g.id.instanceID).None?
    ensures UniquePairs(RemoveFirst(games, g))
  {
    RemoveFirstNoDup(games, g);
  }

  /**
   * Slot reuse: when every smaller instance number of the type is in use,
   * ending an instance makes its instance number the smallest free one, so
   * the next instance of that type gets it back.
   */
  lemma ReuseAfterEnd(games: seq<Minigame>, g: Minigame)
    requires NoDup(games) && UniquePairs(games) && g in games && g.id.instanceID >= 0
    requires forall j :: 0 <= j < g.id.instanceID ==> FindMinigame(games, g.id.typeID, j).Some?
    ensures SmallestFree(RemoveFirst(games, g), g.id.typeID, g.id.instanceID)
  {
    var r := RemoveFirst(games, g);
    RemoveFirstNoDup(games, g);
    forall j | 0 <= j < g.id.instanceID
      ensures FindMinigame(r, g.id.typeID, j).Some?
    {
      var m := FindMinigame(games, g.id.typeID, j).value;
      assert m != g;
      assert m in r;
    }
  }

  // ---------------------------------------------------------------------
  // Players
  // ---------------------------------------------------------------------

  /** The filter that keeps the players whose join event is not cancelled. */
  function Joins(joinCancelled: Player -> bool): Player -> bool
  {
    p => !joinCancelled(p)
  }

  /** No player is in two active instances. */
  ghost predicate OneGameEach(games: seq<Minigame>)
    reads games
  {
    forall a, b, p :: a in games && b in games && a != b && p in a.players ==> p !in b.players
  }

  /** Under OneGameEach the current instance of a player is the only active one holding them. */
  lemma CurrentIsOnly(games: seq<Minigame>, player: Player)
    requires OneGameEach(games)
    requires CurrentMinigame(games, player).Some?
    ensures forall m :: m in games && player in m.players ==> m == CurrentMinigame(games, player).value
  {
  }

  /** A new instance without players keeps the lists duplicate-free and every player in one instance. */
  lemma AddEmptyGame(games: seq<Minigame>, m: Minigame)
    requires NoDup(games) && OneGameEach(games) && (forall g :: g in games ==> g.Valid())
    requires m !in games && m.players == []
    ensures NoDup(games + [m]) && OneGameEach(games + [m]) && forall g :: g in games + [m] ==> g.Valid()
  {
    AppendNoDup(games, m);
  }

  class MinigameManager {
    var minigameTypes: seq<Factory>
    var activeMinigames: seq<Minigame>
    var lobbies: seq<VirtualLobby>
    const arenaDistributor: Arenas.ArenaManager

    ghost predicate Valid()
      reads this, activeMinigames, lobbies
    {
      NoDup(activeMinigames) && UniquePairs(activeMinigames) && OneGameEach(activeMinigames)
      && (forall m :: m in activeMinigames ==> m.Valid())
      && NoDup(lobbies)
      && (forall l :: l in lobbies ==>
            l.manager == this && NoDup(l.lobby)
            && l.factory.Some? && l.factory == GetMinigameFactory(minigameTypes, l.minigameName))
    }

    /** The arena distance of the arena manager comes from the configuration; it is a parameter here. */
    constructor (arenaDistance: int)
      ensures Valid()
      ensures minigameTypes == [] && activeMinigames == [] && lobbies == []
      ensures fresh(arenaDistributor) && arenaDistributor.arenas == [] && arenaDistributor.arenaDistance == arenaDistance
    {
      minigameTypes := [];
      activeMinigames := [];
      lobbies := [];
      arenaDistributor := new Arenas.ArenaManager(arenaDistance);
    }

    /**
     * generateID: the type number is the index of the factory registered
     * under the name (-1 without one) and the instance number the smallest
     * one free for that type; `token` is the random unique identifier.
     */
    method GenerateID(minigameType: string, token: nat) returns (id: MinigameID)
      ensures id.minigameType == minigameType && id.uniqueID == token
      ensures id.typeID == if GetMinigameFactory(minigameTypes, minigameType).Some? then FactoryIndex(minigameTypes, minigameType) else -1
      ensures SmallestFree(activeMinigames, id.typeID, id.instanceID)
    {
      var factory := GetMinigameFactory(minigameTypes, minigameType);
      var typeID: int := -1;
      if factory.Some? {
        TypeNumber(minigameTypes, minigameType);
        typeID := IndexOf(minigameTypes, factory.value);
      }
      var instanceID := 0;
      while FindMinigame(activeMinigames, typeID, instanceID).Some?
        invariant instanceID >= 0
        invariant forall j :: 0 <= j < instanceID ==> FindMinigame(activeMinigames, typeID, j).Some?
        decreases |UsedFrom(activeMinigames, typeID, instanceID)|
      {
        ghost var before := UsedFrom(activeMinigames, typeID, instanceID);
        ghost var m := FindMinigame(activeMinigames, typeID, instanceID).value;
        instanceID := instanceID + 1;
        assert m !in UsedFrom(activeMinigames, typeID, instanceID);
        assert UsedFrom(activeMinigames, typeID, instanceID) <= before - {m};
        SubsetSmaller(UsedFrom(activeMinigames, typeID, instanceID), before, m);
      }
      id := NewID(minigameType, typeID, instanceID, token);
    }

    /**
     * initializeMinigame: nothing for an unregistered name; otherwise a new
     * instance with a freshly generated identifier, the arena cached for it,
     * and no players, added to the active list. Building the arena is not
     * part of this model; its failure is swallowed, so the instance is
     * added either way.
     */
    method InitializeMinigame(name: string, token: nat) returns (r: Option<Minigame>)
      requires Valid()
      modifies this, arenaDistributor
      ensures Valid()
      ensures minigameTypes == old(minigameTypes) && lobbies == old(lobbies)
      ensures r.None? <==> old(GetMinigameFactory(minigameTypes, name)).None?
      ensures r.None? ==> activeMinigames == old(activeMinigames)
      ensures r.Some? ==>
                var m := r.value;
                fresh(m) && activeMinigames == old(activeMinigames) + [m] && m.players == []
                && m.id.minigameType == name && m.id.uniqueID == token
                && m.id.typeID == FactoryIndex(minigameTypes, name)
                && SmallestFree(old(activeMinigames), m.id.typeID, m.id.instanceID)
                && m.instanced == GetMinigameFactory(minigameTypes, name).value.instanced
                && m.arena.id.typeID == m.id.typeID && m.arena.id.instanceID == m.id.instanceID
    {
      var factory := GetMinigameFactory(minigameTypes, name);
      if factory.None? {
        return None;
      }
      var id := GenerateID(name, token);
      var arena := arenaDistributor.GetArena(id);
      var minigame := new Minigame(id, arena, factory.value.instanced);
      AddFreePair(activeMinigames, minigame);
      AddEmptyGame(activeMinigames, minigame);
      activeMinigames := activeMinigames + [minigame];
      r := Some(minigame);
    }

    /** endMinigame: the instance leaves the active list; its pair becomes free. */
    method EndMinigame(minigame: Minigame)
      requires Valid()
      modifies this
      ensures Valid()
      ensures activeMinigames == RemoveFirst(old(activeMinigames), minigame)
      ensures minigame !in activeMinigames
      ensures minigameTypes == old(minigameTypes) && lobbies == old(lobbies)
    {
      RemoveFirstNoDup(activeMinigames, minigame);
      if minigame in activeMinigames {
        EndFreesPair(activeMinigames, minigame);
      }
      activeMinigames := RemoveFirst(activeMinigames, minigame);
    }

    /**
     * The body of populateInstance's loop, on the manager's side: the player
     * leaves the active instance they are in, then joins `minigame`, asking
     * the manager afresh whether they are still in some instance.
     */
    method MovePlayer(player: Player, minigame: Minigame, cancelled: bool)
      requires Valid() && minigame.Valid()
      modifies activeMinigames, minigame
      ensures Valid() && minigame.Valid()
      ensures forall m :: m in activeMinigames && m != minigame ==> m.players == RemoveFirst(old(m.players), player)
      ensures forall m :: m in activeMinigames && m != minigame ==> player !in m.players
      ensures minigame in activeMinigames || player !in old(minigame.players) ==>
                minigame.players == RemoveFirst(old(minigame.players), player) + (if cancelled then [] else [player])
      ensures minigame !in activeMinigames && player in old(minigame.players) ==> minigame.players == old(minigame.players)
    {
      RemoveFirstSpec(minigame.players, player);
      LeaveCurrent(player);
      label Left:
      assert minigame in activeMinigames || player !in old(minigame.players) ==>
               minigame.players == RemoveFirst(old(minigame.players), player) && player !in minigame.players;
      JoinFree(player, minigame, cancelled);
      assert forall m :: m in activeMinigames && m != minigame ==> m.players == old@Left(m.players);
    }

    /**
     * The join of populateInstance's loop body, once the player is in no
     * active instance: the manager reports them in no instance, so
     * Minigame.addPlayer appends them unless they are already a member or
     * the join event is cancelled.
     */
    method JoinFree(player: Player, minigame: Minigame, cancelled: bool)
      requires Valid() && minigame.Valid()
      requires forall m :: m in activeMinigames ==> player !in m.players
      modifies minigame
      ensures Valid() && minigame.Valid()
      ensures minigame.players == old(minigame.players) + (if player in old(minigame.players) || cancelled then [] else [player])
    {
      var inSomeGame := CurrentMinigame(activeMinigames, player).Some?;
      var _ := minigame.AddPlayer(player, inSomeGame, cancelled);
    }

    /** The player leaves the active instance that holds them, if any; nobody joins. */
    method LeaveCurrent(player: Player)
      requires Valid()
      modifies activeMinigames
      ensures Valid()
      ensures forall m :: m in activeMinigames ==> m.players == RemoveFirst(old(m.players), player)
      ensures forall m :: m in activeMinigames ==> player !in m.players
    {
      var current := CurrentMinigame(activeMinigames, player);
      forall m | m in activeMinigames && player !in m.players
        ensures RemoveFirst(m.players, player) == m.players
      {
        RemoveFirstSpec(m.players, player);
      }
      if current.Some? {
        CurrentIsOnly(activeMinigames, player);
        var _ := current.value.RemovePlayer(player);
      }
    }

    /**
     * registerMinigameType: the factory is appended; an instanced type gets a
     * new empty lobby and no instance, any other type gets one instance
     * started at once.
     */
    method RegisterMinigameType(factory: Factory, token: nat)
      requires Valid()
      modifies this, arenaDistributor
      ensures Valid()
      ensures minigameTypes == old(minigameTypes) + [factory]
      ensures factory.instanced ==>
                activeMinigames == old(activeMinigames)
                && |lobbies| == |old(lobbies)| + 1 && lobbies[..|old(lobbies)|] == old(lobbies)
                && fresh(lobbies[|old(lobbies)|]) && lobbies[|old(lobbies)|].minigameName == factory.name
                && lobbies[|old(lobbies)|].lobby == []
      ensures !factory.instanced ==>
                lobbies == old(lobbies)
                && |activeMinigames| == |old(activeMinigames)| + 1 && activeMinigames[..|old(activeMinigames)|] == old(activeMinigames)
                && fresh(activeMinigames[|old(activeMinigames)|])
                && activeMinigames[|old(activeMinigames)|].id.minigameType == factory.name
                && activeMinigames[|old(activeMinigames)|].players == []
    {
      forall l | l in lobbies
        ensures GetMinigameFactory(minigameTypes + [factory], l.minigameName) == l.factory
      {
        FactoryAppend(minigameTypes, factory, l.minigameName);
      }
      FactoryAppend(minigameTypes, factory, factory.name);
      minigameTypes := minigameTypes + [factory];
      if factory.instanced {
        var lobby := new VirtualLobby(this, factory.name);
        lobbies := lobbies + [lobby];
      } else {
        var _ := InitializeMinigame(factory.name, token);
      }
    }

    /**
     * removeFromAllMinigames: the player leaves every active instance, then
     * every lobby. Each list loses its first occurrence of the player, which,
     * as no list holds a player twice, leaves the player nowhere.
     */
    method RemoveFromAllMinigames(player: Player)
      requires Valid()
      modifies activeMinigames, lobbies
      ensures Valid()
      ensures forall m :: m in activeMinigames ==> m.players == RemoveFirst(old(m.players), player) && player !in m.players
      ensures forall l :: l in lobbies ==> l.lobby == RemoveFirst(old(l.lobby), player) && player !in l.lobby
    {
      var i := 0;
      while i < |activeMinigames|
        invariant 0 <= i <= |activeMinigames|
        invariant Valid()
        invariant forall k :: 0 <= k < i ==> activeMinigames[k].players == RemoveFirst(old(activeMinigames[k].players), player)
        invariant forall k :: 0 <= k < i ==> player !in activeMinigames[k].players
        invariant forall k :: i <= k < |activeMinigames| ==> activeMinigames[k].players == old(activeMinigames[k].players)
        invariant forall l :: l in lobbies ==> l.lobby == old(l.lobby)
      {
        RemoveOne(activeMinigames[i], player);
        i := i + 1;
      }
      LeaveAllLobbies(player);
    }

    /** Every lobby loses the player; the instances are untouched. */
    method LeaveAllLobbies(player: Player)
      requires Valid()
      modifies lobbies
      ensures Valid()
      ensures forall l :: l in lobbies ==> l.lobby == RemoveFirst(old(l.lobby), player) && player !in l.lobby
    {
      var i := 0;
      while i < |lobbies|
        invariant 0 <= i <= |lobbies|
        invariant Valid()
        invariant forall k :: 0 <= k < i ==> lobbies[k].lobby == RemoveFirst(old(lobbies[k].lobby), player) && player !in lobbies[k].lobby
        invariant forall k :: i <= k < |lobbies| ==> lobbies[k].lobby == old(lobbies[k].lobby)
      {
        lobbies[i].RemovePlayerFromLobby(player);
        i := i + 1;
      }
    }

    /** One step of removeFromAllMinigames's first loop, keeping the manager invariant. */
    method RemoveOne(m: Minigame, player: Player)
      requires Valid() && m in activeMinigames
      modifies m
      ensures Valid()
      ensures m.players == RemoveFirst(old(m.players), player) && player !in m.players
    {
      var _ := m.RemovePlayer(player);
    }

    /**
     * addToLobby: an unknown lobby is an error and changes nothing; a
     * cancelled lobby-join event changes nothing; otherwise the player leaves
     * every lobby and then joins the named one (`joinCancelled` decides the
     * join events of the instance a full lobby starts).
     */
    method AddToLobby(player: Player, minigame: string, cancelled: bool, token: nat, joinCancelled: Player -> bool)
        returns (ok: bool, ghost started: Option<Minigame>, ghost drained: seq<Player>)
      requires Valid()
      modifies this, arenaDistributor, activeMinigames, lobbies
      ensures Valid()
      ensures ok == old(GetLobby(lobbies, minigame)).Some?
      ensures minigameTypes == old(minigameTypes) && lobbies == old(lobbies)
      ensures !ok || cancelled ==>
                activeMinigames == old(activeMinigames) && started.None?
                && (forall m :: m in activeMinigames ==> m.players == old(m.players))
                && (forall l :: l in lobbies ==> l.lobby == old(l.lobby))
      ensures ok && !cancelled ==>
                var target := GetLobby(lobbies, minigame).value;
                forall l :: l in lobbies && l != target ==> l.lobby == RemoveFirst(old(l.lobby), player)
      ensures ok && !cancelled ==>
                var target := GetLobby(lobbies, minigame).value;
                started.Some? <==> |RemoveFirst(old(target.lobby), player)| + 1 >= target.factory.value.minPlayers
      ensures ok && !cancelled && started.None? ==>
                var target := GetLobby(lobbies, minigame).value;
                target.lobby == RemoveFirst(old(target.lobby), player) + [player]
                && activeMinigames == old(activeMinigames)
                && forall m :: m in activeMinigames ==> m.players == old(m.players)
      ensures ok && !cancelled && started.Some? ==>
                var target := GetLobby(lobbies, minigame).value;
                var m := started.value;
                fresh(m) && activeMinigames == old(activeMinigames) + [m]
                && m.id.minigameType == minigame && m.id.uniqueID == token
                && m.id.typeID == FactoryIndex(minigameTypes, minigame)
                && SmallestFree(old(activeMinigames), m.id.typeID, m.id.instanceID)
                && RemoveFirst(old(target.lobby), player) + [player] == drained + target.lobby
                && m.players == Filter(drained, Joins(joinCancelled))
                && (target.lobby == [] || m.GetSize() >= target.factory.value.maxPlayers)
                && (target.factory.value.maxPlayers >= 0 ==> m.GetSize() <= target.factory.value.maxPlayers)
                && forall g :: g in old(activeMinigames) ==> g.players == Filter(old(g.players), NotIn(drained))
    {
      started, drained := None, [];
      var lobby := GetLobby(lobbies, minigame);
      if lobby.None? {
        return false, started, drained;
      }
      if cancelled {
        return true, started, drained;
      }
      started, drained := JoinLobby(lobby.value, player, token, joinCancelled);
      return true, started, drained;
    }

    /**
     * The join at the end of addToLobby: the player leaves every lobby, then
     * joins `target`, which may start an instance of its minigame.
     */
    method JoinLobby(target: VirtualLobby, player: Player, token: nat, joinCancelled: Player -> bool)
        returns (started: Option<Minigame>, ghost drained: seq<Player>)
      requires Valid() && target in lobbies
      modifies this, arenaDistributor, activeMinigames, lobbies
      ensures Valid()
      ensures minigameTypes == old(minigameTypes) && lobbies == old(lobbies)
      ensures forall l :: l in lobbies && l != target ==> l.lobby == RemoveFirst(old(l.lobby), player)
      ensures started.Some? <==> |RemoveFirst(old(target.lobby), player)| + 1 >= target.factory.value.minPlayers
      ensures started.None? ==>
                target.lobby == RemoveFirst(old(target.lobby), player) + [player]
                && activeMinigames == old(activeMinigames)
                && forall m :: m in activeMinigames ==> m.players == old(m.players)
      ensures started.Some? ==>
                var m := started.value;
                fresh(m) && activeMinigames == old(activeMinigames) + [m]
                && m.id.minigameType == target.minigameName && m.id.uniqueID == token
                && m.id.typeID == FactoryIndex(minigameTypes, target.minigameName)
                && SmallestFree(old(activeMinigames), m.id.typeID, m.id.instanceID)
                && RemoveFirst(old(target.lobby), player) + [player] == drained + target.lobby
                && m.players == Filter(drained, Joins(joinCancelled))
                && (target.lobby == [] || m.GetSize() >= target.factory.value.maxPlayers)
                && (target.factory.value.maxPlayers >= 0 ==> m.GetSize() <= target.factory.value.maxPlayers)
                && forall g :: g in old(activeMinigames) ==> g.players == Filter(old(g.players), NotIn(drained))
    {
      LeaveAllLobbies(player);
      started, drained := target.AddPlayerToLobby(player, token, joinCancelled);
    }
  }

  /** removeFromAllMinigames twice has the effect of one call. */
  method RemoveFromAllTwice(manager: MinigameManager, player: Player)
    requires manager.Valid()
    modifies manager.activeMinigames, manager.lobbies
    ensures manager.Valid()
    ensures forall m :: m in manager.activeMinigames ==> m.players == RemoveFirst(old(m.players), player)
    ensures forall l :: l in manager.lobbies ==> l.lobby == RemoveFirst(old(l.lobby), player)
  {
    manager.RemoveFromAllMinigames(player);
    label Once:
    manager.RemoveFromAllMinigames(player);
    forall m | m in manager.activeMinigames
      ensures m.players == old@Once(m.players)
    {
      RemoveFirstSpec(old@Once(m.players), player);
    }
    forall l | l in manager.lobbies
      ensures l.lobby == old@Once(l.lobby)
    {
      RemoveFirstSpec(old@Once(l.lobby), player);
    }
  }

  lemma NoDupTail<T>(s: seq<T>)
    requires NoDup(s) && s != []
    ensures NoDup(s[1..])
  {
  }

  lemma SubsetSmaller<T>(a: set<T>, b: set<T>, x: T)
    requires a <= b - {x} && x in b
    ensures |a| < |b|
  {
    assert |b - {x}| == |b| - 1;
    SubsetCardinality(a, b - {x});
  }

  lemma {:induction false} SubsetCardinality<T>(a: set<T>, b: set<T>)
    requires a <= b
    ensures |a| <= |b|
    decreases |b|
  {
    if a != {} {
      var y :| y in a;
      SubsetCardinality(a - {y}, b - {y});
    }
  }

  /** The active instances of a type whose instance number is at least k. */
  ghost function UsedFrom(games: seq<Minigame>, typeID: int, k: int): set<Minigame>
  {
    set m | m in games && m.id.typeID == typeID && m.id.instanceID >= k
  }

  /**
   * What populateInstance's loop keeps, against the players `start` each
   * instance had before it: every other active instance has lost exactly
   * the drained players, and an active target holds its remaining original
   * players followed by the drained players whose join was not cancelled.
   */
  ghost predicate Drained(games: seq<Minigame>, minigame: Minigame, start: map<Minigame, seq<Player>>,
                          drained: seq<Player>, joinCancelled: Player -> bool)
    reads games, minigame
  {
    && (forall m :: m in games ==> m in start && NoDup(start[m]))
    && minigame in start && NoDup(start[minigame])
    && (forall m :: m in games && m != minigame ==> m.players == Filter(start[m], NotIn(drained)))
    && (minigame in games ==> minigame.players == Filter(start[minigame], NotIn(drained)) + Filter(drained, Joins(joinCancelled)))
  }

  /** Before the first pass nothing is drained, so every instance still has its players `start`. */
  lemma DrainedStart(games: seq<Minigame>, minigame: Minigame, start: map<Minigame, seq<Player>>, joinCancelled: Player -> bool)
    requires forall m :: m in games ==> m.Valid()
    requires minigame.Valid()
    requires start == map m | m in games + [minigame] :: m.players
    ensures Drained(games, minigame, start, [], joinCancelled)
  {
    forall m | m in games + [minigame]
      ensures m in start && start[m] == m.players && m.players == Filter(m.players, NotIn([]))
    {
      Unfiltered(m.players);
    }
    assert Filter([], Joins(joinCancelled)) == [];
  }

  class VirtualLobby {
    var lobby: seq<Player>
    const manager: MinigameManager
    const factory: Option<Factory>
    const minigameName: string

    constructor (manager: MinigameManager, minigameName: string)
      ensures this.manager == manager && this.minigameName == minigameName
      ensures factory == GetMinigameFactory(manager.minigameTypes, minigameName)
      ensures lobby == []
    {
      this.manager := manager;
      this.minigameName := minigameName;
      factory := GetMinigameFactory(manager.minigameTypes, minigameName);
      lobby := [];
    }

    function GetSize(): nat
      reads this
    {
      |lobby|
    }

    /**
     * addPlayerToLobby: nothing for a player already waiting; otherwise the
     * player is appended, and when the lobby then holds at least the type's
     * minimum an instance is started and filled from the front of the lobby.
     */
    method AddPlayerToLobby(player: Player, token: nat, joinCancelled: Player -> bool)
        returns (started: Option<Minigame>, ghost drained: seq<Player>)
      requires manager.Valid() && this in manager.lobbies
      modifies this, manager, manager.arenaDistributor, manager.activeMinigames
      ensures manager.Valid()
      ensures manager.lobbies == old(manager.lobbies) && manager.minigameTypes == old(manager.minigameTypes)
      ensures player in old(lobby) ==>
                started.None? && lobby == old(lobby) && manager.activeMinigames == old(manager.activeMinigames)
      ensures player !in old(lobby) ==> (started.Some? <==> |old(lobby)| + 1 >= factory.value.minPlayers)
      ensures started.None? && player !in old(lobby) ==>
                lobby == old(lobby) + [player] && manager.activeMinigames == old(manager.activeMinigames)
      ensures started.None? ==> forall m :: m in manager.activeMinigames ==> m.players == old(m.players)
      ensures started.None? ==> drained == []
      ensures started.Some? ==>
                var m := started.value;
                fresh(m) && manager.activeMinigames == old(manager.activeMinigames) + [m]
                && m.id.minigameType == minigameName && m.id.uniqueID == token
                && m.id.typeID == FactoryIndex(manager.minigameTypes, minigameName)
                && SmallestFree(old(manager.activeMinigames), m.id.typeID, m.id.instanceID)
                && old(lobby) + [player] == drained + lobby
                && m.players == Filter(drained, Joins(joinCancelled))
                && (lobby == [] || m.GetSize() >= factory.value.maxPlayers)
                && (factory.value.maxPlayers >= 0 ==> m.GetSize() <= factory.value.maxPlayers)
                && forall g :: g in old(manager.activeMinigames) ==> g.players == Filter(old(g.players), NotIn(drained))
    {
      drained := [];
      if player in lobby {
        return None, drained;
      }
      AppendNoDup(lobby, player);
      lobby := lobby + [player];
      if ShouldStart() {
        var minigame := manager.InitializeMinigame(minigameName, token);
        label Started:
        drained := PopulateInstance(minigame.value, joinCancelled);
        assert Filter(old@Started(minigame.value.players), NotIn(drained)) == [];
        return minigame, drained;
      }
      return None, drained;
    }

    predicate ShouldStart()
      requires factory.Some?
      reads this
    {
      |lobby| >= factory.value.minPlayers
    }

    /** removePlayerFromLobby: the first occurrence goes; nothing happens for an absent player. */
    method RemovePlayerFromLobby(player: Player)
      modifies this
      ensures lobby == RemoveFirst(old(lobby), player)
      ensures NoDup(old(lobby)) ==> NoDup(lobby) && player !in lobby
    {
      if NoDup(lobby) {
        RemoveFirstNoDup(lobby, player);
      }
      lobby := RemoveFirst(lobby, player);
    }

    /** The quit handler: a server quit takes the player out of the lobby. */
    method OnPlayerQuit(player: Player)
      modifies this
      ensures lobby == RemoveFirst(old(lobby), player)
      ensures NoDup(old(lobby)) ==> NoDup(lobby) && player !in lobby
    {
      RemovePlayerFromLobby(player);
    }

    /**
     * populateInstance: while players wait and the instance is below the
     * type's maximum, the front player leaves the lobby, leaves the instance
     * they are in, and joins this one (`joinCancelled` decides each join
     * event). The drained players are returned in order.
     */
    method PopulateInstance(minigame: Minigame, joinCancelled: Player -> bool) returns (drained: seq<Player>)
      requires manager.Valid() && this in manager.lobbies && minigame.Valid()
      modifies this, minigame, manager.activeMinigames
      ensures manager.Valid() && minigame.Valid()
      ensures old(lobby) == drained + lobby
      ensures lobby == [] || minigame.GetSize() >= factory.value.maxPlayers
      ensures old(minigame.GetSize()) <= factory.value.maxPlayers ==> minigame.GetSize() <= factory.value.maxPlayers
      ensures minigame in manager.activeMinigames ==>
                minigame.players == Filter(old(minigame.players), NotIn(drained)) + Filter(drained, Joins(joinCancelled))
      ensures forall m :: m in manager.activeMinigames && m != minigame ==> m.players == Filter(old(m.players), NotIn(drained))
      ensures forall p, m :: p in drained && m in manager.activeMinigames && m != minigame ==> p !in m.players
    {
      ghost var start := map m | m in manager.activeMinigames + [minigame] :: m.players;
      DrainedStart(manager.activeMinigames, minigame, start, joinCancelled);
      drained := DrainLobby(minigame, joinCancelled, start);
      forall p, m | p in drained && m in manager.activeMinigames && m != minigame
        ensures p !in m.players
      {
        FilterMembership(old(m.players), NotIn(drained));
      }
    }

    /** populateInstance's loop, with its effect on every instance stated against `start`. */
    method DrainLobby(minigame: Minigame, joinCancelled: Player -> bool, ghost start: map<Minigame, seq<Player>>)
        returns (drained: seq<Player>)
      requires manager.Valid() && this in manager.lobbies && minigame.Valid()
      requires Drained(manager.activeMinigames, minigame, start, [], joinCancelled)
      modifies this, minigame, manager.activeMinigames
      ensures manager.Valid() && minigame.Valid()
      ensures old(lobby) == drained + lobby
      ensures lobby == [] || minigame.GetSize() >= factory.value.maxPlayers
      ensures old(minigame.GetSize()) <= factory.value.maxPlayers ==> minigame.GetSize() <= factory.value.maxPlayers
      ensures Drained(manager.activeMinigames, minigame, start, drained, joinCancelled)
    {
      drained := [];
      while lobby != [] && minigame.GetSize() < factory.value.maxPlayers
        invariant manager.Valid() && minigame.Valid()
        invariant old(lobby) == drained + lobby
        invariant old(minigame.GetSize()) <= factory.value.maxPlayers ==> minigame.GetSize() <= factory.value.maxPlayers
        invariant Drained(manager.activeMinigames, minigame, start, drained, joinCancelled)
        decreases |lobby|
      {
        var player := AdmitNext(minigame, joinCancelled, start, drained);
        ConcatAssoc(drained, [player], lobby);
        drained := drained + [player];
      }
    }

    /** One pass of populateInstance's loop, with its effect on every instance stated against `start`. */
    method AdmitNext(minigame: Minigame, joinCancelled: Player -> bool, ghost start: map<Minigame, seq<Player>>,
                     ghost drained: seq<Player>) returns (player: Player)
      requires manager.Valid() && this in manager.lobbies && minigame.Valid() && lobby != []
      requires NoDup(drained + lobby)
      requires Drained(manager.activeMinigames, minigame, start, drained, joinCancelled)
      modifies this, minigame, manager.activeMinigames
      ensures manager.Valid() && minigame.Valid()
      ensures old(lobby) == [player] + lobby
      ensures minigame.GetSize() <= old(minigame.GetSize()) + 1
      ensures Drained(manager.activeMinigames, minigame, start, drained + [player], joinCancelled)
    {
      RemoveFirstNoDup(minigame.players, lobby[0]);
      assert lobby[0] !in drained by {
        assert (drained + lobby)[|drained|] == lobby[0];
        assert forall i :: 0 <= i < |drained| ==> (drained + lobby)[i] == drained[i];
      }
      player := PopInto(minigame, joinCancelled);
      forall m | m in manager.activeMinigames && m != minigame
        ensures m.players == Filter(start[m], NotIn(drained + [player]))
      {
        FilterNotInStep(start[m], drained, player);
      }
      if minigame in manager.activeMinigames {
        AdmitStep(start[minigame], drained, player, Joins(joinCancelled));
      }
    }

    /** One pass of populateInstance's loop: the front player leaves the lobby and is moved into the instance. */
    method PopInto(minigame: Minigame, joinCancelled: Player -> bool) returns (player: Player)
      requires manager.Valid() && this in manager.lobbies && minigame.Valid() && lobby != []
      modifies this, minigame, manager.activeMinigames
      ensures manager.Valid() && minigame.Valid()
      ensures old(lobby) == [player] + lobby
      ensures forall m :: m in manager.activeMinigames && m != minigame ==> m.players == RemoveFirst(old(m.players), player)
      ensures forall m :: m in manager.activeMinigames && m != minigame ==> player !in m.players
      ensures minigame in manager.activeMinigames || player !in old(minigame.players) ==>
                minigame.players == RemoveFirst(old(minigame.players), player) + (if joinCancelled(player) then [] else [player])
      ensures minigame !in manager.activeMinigames && player in old(minigame.players) ==> minigame.players == old(minigame.players)
    {
      player := lobby[0];
      NoDupTail(lobby);
      lobby := lobby[1..];
      manager.MovePlayer(player, minigame, joinCancelled(player));
    }
  }
}
