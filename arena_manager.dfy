/**
 * Arena placement and caching (ArenaManager). Each minigame instance gets an
 * arena at a location computed from its type number and instance number;
 * arenas are cached per (type number, instance number) pair, and a finished
 * schematic build marks the arena whose location object it reports as ready.
 */
module Arenas {
  import opened Seqs
  import opened MinigameIDs

  /** The height every arena is placed at. */
  const ARENA_Y: int := 64

  /**
   * getLocation's arithmetic: arenas of one type share an x coordinate and
   * instances of a type line up along z, each `distance` apart, starting one
   * step away from the world origin.
   */
  function LocationOf(typeID: int, instanceID: int, distance: int): (r: (int, int, int))
  {
    ((typeID + 1) * distance, ARENA_Y, (instanceID + 1) * distance)
  }

  lemma CancelFactor(a: int, b: int, d: int)
    requires d != 0 && a * d == b * d
    ensures a == b
  {
    assert (a - b) * d == a * d - b * d;
  }

  /** With a non-zero distance, different (type, instance) pairs get different locations. */
  lemma LocationInjective(t1: int, i1: int, t2: int, i2: int, distance: int)
    requires distance != 0
    requires LocationOf(t1, i1, distance) == LocationOf(t2, i2, distance)
    ensures t1 == t2 && i1 == i2
  {
    CancelFactor(t1 + 1, t2 + 1, distance);
    CancelFactor(i1 + 1, i2 + 1, distance);
  }

  /** With a positive distance, real identifiers are placed away from the axes, at the configured height. */
  lemma LocationPositive(typeID: nat, instanceID: nat, distance: int)
    requires distance > 0
    ensures var r := LocationOf(typeID, instanceID, distance);
            r.0 >= distance && r.2 >= distance && r.1 == ARENA_Y
  {
    assert (typeID + 1) * distance == typeID * distance + distance;
    assert (instanceID + 1) * distance == instanceID * distance + distance;
  }

  /** A world location; arenas are told apart by the identity of their location object. */
  class Location {
    const x: int
    const y: int
    const z: int

    constructor (x: int, y: int, z: int)
      ensures this.x == x && this.y == y && this.z == z
    {
      this.x := x;
      this.y := y;
      this.z := z;
    }
  }

  datatype ArenaState = NotBuilt | Building | Ready | Active | NeedsRebuild

  /** A schematic placeholder: the name tag it replaces and the minigame type it belongs to. */
  datatype Placeholder = Placeholder(nameTag: string, minigameType: string)

  function OfType(minigameType: string): Placeholder -> bool
  {
    (p: Placeholder) => p.minigameType == minigameType
  }

  /** Registering a placeholder extends the placeholders of its own type at the end and leaves every other type's list as it was. */
  lemma RegisterThenQuery(placeholders: seq<Placeholder>, p: Placeholder, minigameType: string)
    ensures Filter(placeholders + [p], OfType(minigameType))
            == Filter(placeholders, OfType(minigameType)) + (if p.minigameType == minigameType then [p] else [])
  {
    FilterAppend(placeholders, [p], OfType(minigameType));
    assert [p][..0] == [];
  }

  /** The placeholders of a type are exactly the registered ones of that type. */
  lemma PlaceholdersOfType(placeholders: seq<Placeholder>, minigameType: string)
    ensures forall p :: p in Filter(placeholders, OfType(minigameType)) <==> p in placeholders && p.minigameType == minigameType
  {
    FilterMembership(placeholders, OfType(minigameType));
  }

  class Arena {
    const location: Location
    const id: MinigameID
    var state: ArenaState

    constructor (location: Location, id: MinigameID)
      ensures this.location == location && this.id == id && state == NotBuilt
    {
      this.location := location;
      this.id := id;
      state := NotBuilt;
    }
  }

  /** The first arena whose identifier has the given type and instance numbers. */
  function FindArena(arenas: seq<Arena>, typeID: int, instanceID: int): (r: Option<Arena>)
    ensures r.None? <==> forall i :: 0 <= i < |arenas| ==> arenas[i].id.typeID != typeID || arenas[i].id.instanceID != instanceID
    ensures r.Some? ==> exists i :: 0 <= i < |arenas| && arenas[i] == r.value
                                    && (forall j :: 0 <= j < i ==> arenas[j].id.typeID != typeID || arenas[j].id.instanceID != instanceID)
    ensures r.Some? ==> r.value.id.typeID == typeID && r.value.id.instanceID == instanceID
  {
    if arenas == [] then None
    else if arenas[0].id.typeID == typeID && arenas[0].id.instanceID == instanceID then Some(arenas[0])
    else
      var r := FindArena(arenas[1..], typeID, instanceID);
      assert r.Some? ==> exists i :: 1 <= i < |arenas| && arenas[i] == r.value
                                     && (forall j :: 1 <= j < i ==> arenas[j].id.typeID != typeID || arenas[j].id.instanceID != instanceID) by {
        if r.Some? {
          var i :| 0 <= i < |arenas[1..]| && arenas[1..][i] == r.value
                   && (forall j :: 0 <= j < i ==> arenas[1..][j].id.typeID != typeID || arenas[1..][j].id.instanceID != instanceID);
          assert arenas[i + 1] == r.value;
          forall j | 1 <= j < i + 1
            ensures arenas[j].id.typeID != typeID || arenas[j].id.instanceID != instanceID
          {
            assert arenas[j] == arenas[1..][j - 1];
          }
        }
      }
      r
  }

  /** Appending an arena that matches a pair not cached before makes it the cached arena for that pair; other pairs are unaffected. */
  lemma FindArenaAppend(arenas: seq<Arena>, a: Arena, typeID: int, instanceID: int)
    requires FindArena(arenas, a.id.typeID, a.id.instanceID).None?
    ensures FindArena(arenas + [a], typeID, instanceID)
            == if typeID == a.id.typeID && instanceID == a.id.instanceID then Some(a) else FindArena(arenas, typeID, instanceID)
  {
    var s := arenas + [a];
    var r := FindArena(s, typeID, instanceID);
    if FindArena(arenas, typeID, instanceID).Some? {
      var x := FindArena(arenas, typeID, instanceID).value;
      var i :| 0 <= i < |arenas| && arenas[i] == x
               && (forall j :: 0 <= j < i ==> arenas[j].id.typeID != typeID || arenas[j].id.instanceID != instanceID);
      assert s[i] == x;
      assert r.Some?;
      var k :| 0 <= k < |s| && s[k] == r.value
               && (forall j :: 0 <= j < k ==> s[j].id.typeID != typeID || s[j].id.instanceID != instanceID);
      assert k == i;
    } else if typeID == a.id.typeID && instanceID == a.id.instanceID {
      assert s[|arenas|] == a;
      var k :| 0 <= k < |s| && s[k] == r.value
               && (forall j :: 0 <= j < k ==> s[j].id.typeID != typeID || s[j].id.instanceID != instanceID);
      assert k == |arenas|;
    } else {
      assert forall i :: 0 <= i < |s| ==> s[i].id.typeID != typeID || s[i].id.instanceID != instanceID by {
        forall i | 0 <= i < |s|
          ensures s[i].id.typeID != typeID || s[i].id.instanceID != instanceID
        {
          if i < |arenas| {
            assert s[i] == arenas[i];
          }
        }
      }
    }
  }

  /** The first arena whose location is the given location object (reference equality). */
  function ArenaAt(arenas: seq<Arena>, location: Location): (r: Option<Arena>)
    ensures r.None? <==> forall i :: 0 <= i < |arenas| ==> arenas[i].location != location
    ensures r.Some? ==> r.value in arenas && r.value.location == location
    ensures r.Some? ==> forall j :: 0 <= j < IndexOf(arenas, r.value) ==> arenas[j].location != location
  {
    if arenas == [] then None
    else if arenas[0].location == location then Some(arenas[0])
    else ArenaAt(arenas[1..], location)
  }

  class ArenaManager {
    var arenas: seq<Arena>
    var placeholders: seq<Placeholder>
    const arenaDistance: int

    /** The distance comes from the configuration; it is a parameter here. */
    constructor (arenaDistance: int)
      ensures arenas == [] && placeholders == [] && this.arenaDistance == arenaDistance
    {
      arenas := [];
      placeholders := [];
      this.arenaDistance := arenaDistance;
    }

    method GetLocation(typeID: int, instanceID: int) returns (location: Location)
      ensures fresh(location)
      ensures (location.x, location.y, location.z) == LocationOf(typeID, instanceID, arenaDistance)
    {
      var x := (typeID + 1) * arenaDistance;
      var y := 64;
      var z := (instanceID + 1) * arenaDistance;
      location := new Location(x, y, z);
    }

    /**
     * getArena(MinigameID): the cached arena for the identifier's type and
     * instance numbers, or a new arena at getLocation, appended to the cache.
     */
    method GetArena(id: MinigameID) returns (arena: Arena)
      modifies this
      ensures placeholders == old(placeholders)
      ensures old(FindArena(arenas, id.typeID, id.instanceID)).Some? ==>
                arena == old(FindArena(arenas, id.typeID, id.instanceID)).value && arenas == old(arenas)
      ensures old(FindArena(arenas, id.typeID, id.instanceID)).None? ==>
                fresh(arena) && arena.id == id && arena.state == NotBuilt
                && (arena.location.x, arena.location.y, arena.location.z) == LocationOf(id.typeID, id.instanceID, arenaDistance)
                && arenas == old(arenas) + [arena]
      ensures FindArena(arenas, id.typeID, id.instanceID) == Some(arena)
    {
      var i := 0;
      while i < |arenas|
        invariant 0 <= i <= |arenas|
        invariant FindArena(arenas, id.typeID, id.instanceID) == FindArena(arenas[i..], id.typeID, id.instanceID)
      {
        var arenaID := arenas[i].id;
        if arenaID.typeID == id.typeID && arenaID.instanceID == id.instanceID {
          return arenas[i];
        }
        assert arenas[i..][1..] == arenas[i + 1..];
        i := i + 1;
      }
      var location := GetLocation(id.typeID, id.instanceID);
      arena := new Arena(location, id);
      FindArenaAppend(arenas, arena, id.typeID, id.instanceID);
      arenas := arenas + [arena];
    }

    method RegisterPlaceholder(placeholder: Placeholder)
      modifies this
      ensures placeholders == old(placeholders) + [placeholder] && arenas == old(arenas)
    {
      placeholders := placeholders + [placeholder];
    }

    function GetPlaceholders(minigameType: string): seq<Placeholder>
      reads this
    {
      Filter(placeholders, OfType(minigameType))
    }

    /**
     * The build-finished handler: the first arena whose location is the
     * reported location object becomes ready; with no such arena nothing
     * changes. The result says whether the completion event is raised.
     */
    method OnSchematicBuildFinished(location: Location) returns (raised: bool)
      modifies set a | a in arenas
      ensures raised == ArenaAt(arenas, location).Some?
      ensures raised ==> ArenaAt(arenas, location).value.state == Ready
      ensures forall a :: a in arenas && (!raised || a != ArenaAt(arenas, location).value) ==> a.state == old(a.state)
    {
      var i := 0;
      while i < |arenas|
        invariant 0 <= i <= |arenas|
        invariant ArenaAt(arenas, location) == ArenaAt(arenas[i..], location)
      {
        if arenas[i].location == location {
          arenas[i].state := Ready;
          return true;
        }
        assert arenas[i..][1..] == arenas[i + 1..];
        i := i + 1;
      }
      return false;
    }
  }
}
