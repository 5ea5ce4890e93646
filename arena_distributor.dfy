/**
 * The uncached arena placement of ArenaDistributor: every
 * request builds a fresh arena, either at the location computed from the
 * identifier or at a location supplied by the caller.
 */
module Distribution {
  import opened Seqs
  import opened MinigameIDs
  import opened Arenas

  /** ArenaDistributor's arena: its distributor, its location and the schematic name it loads. */
  class Arena {
    const distributor: ArenaDistributor
    const location: Location
    const name: string

    constructor (distributor: ArenaDistributor, location: Location, name: string)
      ensures this.distributor == distributor && this.location == location && this.name == name
    {
      this.distributor := distributor;
      this.location := location;
      this.name := name;
    }
  }

  class ArenaDistributor {
    var placeholders: seq<Placeholder>
    const arenaDistance: int

    /** The distance comes from the configuration; it is a parameter here. */
    constructor (arenaDistance: int)
      ensures placeholders == [] && this.arenaDistance == arenaDistance
    {
      placeholders := [];
      this.arenaDistance := arenaDistance;
    }

    method GetLocation(typeID: int, instanceID: int) returns (location: Location)
      ensures fresh(location)
      ensures (location.x, location.y, location.z) == LocationOf(typeID, instanceID, arenaDistance)
    {
      var x := (typeID + 1) * arenaDistance;
      var y := 64;
      var z := (instanceID + 1) * arenaDistance;
      location := new Location(x, y, z);
    }

    /** getArena: a new arena on every call, at getLocation, named after the identifier's type. */
    method GetArena(id: MinigameID) returns (arena: Arena)
      ensures fresh(arena) && fresh(arena.location)
      ensures arena.distributor == this && arena.name == id.minigameType
      ensures (arena.location.x, arena.location.y, arena.location.z) == LocationOf(id.typeID, id.instanceID, arenaDistance)
    {
      var location := GetLocation(id.typeID, id.instanceID);
      arena := new Arena(this, location, id.minigameType);
    }

    /** getArenaUnsupervised: a new arena at exactly the given location object. */
    method GetArenaUnsupervised(minigameType: string, location: Location) returns (arena: Arena)
      ensures fresh(arena)
      ensures arena.distributor == this && arena.location == location && arena.name == minigameType
    {
      arena := new Arena(this, location, minigameType);
    }

    method RegisterPlaceholder(placeholder: Placeholder)
      modifies this
      ensures placeholders == old(placeholders) + [placeholder]
    {
      placeholders := placeholders + [placeholder];
    }

    function GetPlaceholders(minigameType: string): seq<Placeholder>
      reads this
    {
      Filter(placeholders, OfType(minigameType))
    }
  }

  /** Two requests for the same identifier give two distinct arenas at equal coordinates: nothing is cached. */
  method GetArenaTwice(d: ArenaDistributor, id: MinigameID) returns (a: Arena, b: Arena)
    ensures a != b && a.location != b.location
    ensures (a.location.x, a.location.y, a.location.z) == (b.location.x, b.location.y, b.location.z)
  {
    a := d.GetArena(id);
    b := d.GetArena(id);
  }
}
