/**
 * The monolithic arena builder (ArenaBuildTask): a four-phase state machine
 * run once per server tick.
 *
 *   UPDATE_BLOCKS  (0): copy schematic blocks into the world, at most
 *                       BLOCKS_PER_TICK real writes per tick; unchanged blocks
 *                       cost nothing; move on once the cursor is done.
 *   CLEAR_ENTITIES (1): remove every world entity whose x and z lie in the
 *                       translated box (y is not checked); move on.
 *   PLACE_ENTITIES (2): copy the schematic's entities into the world (a
 *                       foreign step whose failure is swallowed); move on.
 *   FINISHED       (3): cancel the scheduled task; nothing else changes.
 *
 * The world is a map from block coordinates to block values plus a list of
 * entities; blocks absent from the map read as air.
 */
module BuildTask {
  import opened Region
  import opened BuildSubtask
  import opened Seqs

  datatype Block = Air | Solid(data: nat)

  /** An entity and its location (the host's double coordinates, as reals). */
  datatype Entity = Entity(id: nat, x: real, y: real, z: real)

  datatype World = World(blocks: map<Coord, Block>, entities: seq<Entity>)

  function BlockAt(w: World, p: Coord): Block
  {
    if p in w.blocks then w.blocks[p] else Air
  }

  /** A loaded schematic: its origin, its bounding box, its blocks and its entities. */
  datatype Schematic = Schematic(origin: Coord, min: Coord, max: Coord, blocks: map<Coord, Block>, entities: seq<Entity>)

  function FullBlock(s: Schematic, p: Coord): Block
  {
    if p in s.blocks then s.blocks[p] else Air
  }

  const BLOCKS_PER_TICK: int := 500
  const UPDATE_BLOCKS_STATE: int := 0
  const CLEAR_ENTITIES_STATE: int := 1
  const PLACE_ENTITIES_STATE: int := 2
  const FINISHED_STATE: int := 3

  /**
   * The constructor's offset: schematic minimum minus schematic origin plus
   * the target location, per axis. The iterator already walks schematic
   * coordinates from the minimum corner, so a position p is written to
   * p + (location - origin) + min: the minimum corner is counted twice.
   */
  function Offset(location: Coord, s: Schematic): Coord
  {
    Coord(s.min.x - s.origin.x + location.x, s.min.y - s.origin.y + location.y, s.min.z - s.origin.z + location.z)
  }

  function Translate(p: Coord, off: Coord): Coord
  {
    Coord(p.x + off.x, p.y + off.y, p.z + off.z)
  }

  /**
   * handleBlock: the world block at the translated position is compared with
   * the schematic block and written only when they differ; the flag says
   * whether it wrote.
   */
  function HandleBlock(s: Schematic, off: Coord): Callback<World>
  {
    (w: World, p: Coord) =>
      var target := FullBlock(s, p);
      var wp := Translate(p, off);
      if BlockAt(w, wp) == target then (w, false)
      else (w.(blocks := w.blocks[wp := target]), true)
  }

  lemma HandleBlockSpec(s: Schematic, off: Coord, w: World, p: Coord)
    ensures var r := HandleBlock(s, off)(w, p);
            (r.1 <==> BlockAt(w, Translate(p, off)) != FullBlock(s, p))
            && BlockAt(r.0, Translate(p, off)) == FullBlock(s, p)
            && (forall q :: q != Translate(p, off) ==> BlockAt(r.0, q) == BlockAt(w, q))
            && r.0.entities == w.entities
  {
  }

  /** The schematic position p is in place in world w. */
  predicate Placed(s: Schematic, off: Coord, w: World, p: Coord)
  {
    BlockAt(w, Translate(p, off)) == FullBlock(s, p)
  }

  /**
   * After a block-phase tick every position handed to handleBlock holds its
   * schematic block in the world, world positions not written to are
   * unchanged, and entities are untouched.
   */
  lemma {:induction false} BlockTickPlaces(b: Box, c: Cursor, w: World, budget: int, s: Schematic, off: Coord, changed: nat, visited: seq<Coord>)
    requires forall q :: q in visited ==> Placed(s, off, w, q)
    ensures var t := Drive(b, c, w, budget, HandleBlock(s, off), changed, visited);
            (forall q :: q in t.visited ==> Placed(s, off, t.world, q))
            && (forall wp :: (forall q :: q in t.visited ==> wp != Translate(q, off)) ==> BlockAt(t.world, wp) == BlockAt(w, wp))
            && t.world.entities == w.entities
    decreases if c.done then 0 else 1, Remaining(c.pos.y, b.max.y), Remaining(c.pos.x, b.max.x), Remaining(c.pos.z, b.max.z)
  {
    if changed < budget && !c.done {
      var r := HandleBlock(s, off)(w, c.pos);
      HandleBlockSpec(s, off, w, c.pos);
      forall q | q in visited + [c.pos]
        ensures Placed(s, off, r.0, q)
      {
        if q != c.pos {
          assert Translate(q, off) != Translate(c.pos, off);
        }
      }
      BlockTickPlaces(b, Step(b, c), r.0, budget, s, off, if r.1 then changed + 1 else changed, visited + [c.pos]);
      var t := Drive(b, c, w, budget, HandleBlock(s, off), changed, visited);
      assert t == Drive(b, Step(b, c), r.0, budget, HandleBlock(s, off), if r.1 then changed + 1 else changed, visited + [c.pos]);
      DriveTrace(b, Step(b, c), r.0, budget, HandleBlock(s, off), if r.1 then changed + 1 else changed, visited + [c.pos]);
      assert c.pos in t.visited by {
        assert t.visited[..|visited| + 1] == visited + [c.pos];
        assert t.visited[|visited|] == c.pos;
      }
    }
  }

  /** The entity lies in the translated box on x and z; its y is not looked at. */
  predicate InClearZone(b: Box, off: Coord, e: Entity)
  {
    (b.min.x + off.x) as real <= e.x <= (b.max.x + off.x) as real
    && (b.min.z + off.z) as real <= e.z <= (b.max.z + off.z) as real
  }

  function Survives(b: Box, off: Coord): Entity -> bool
  {
    e => !InClearZone(b, off, e)
  }

  /** clearEntities keeps exactly the entities outside the zone, in their order, whatever their height. */
  lemma ClearEntitiesSpec(b: Box, off: Coord, es: seq<Entity>)
    ensures forall e :: e in Filter(es, Survives(b, off)) <==> e in es && !InClearZone(b, off, e)
    ensures forall e, y: real :: InClearZone(b, off, e) == InClearZone(b, off, e.(y := y))
  {
    FilterMembership(es, Survives(b, off));
  }

  /** The world the builder edits, shared with the rest of the server. */
  class GameWorld {
    var blocks: map<Coord, Block>
    var entities: seq<Entity>

    function State(): World
      reads this
    {
      World(blocks, entities)
    }

    constructor (blocks: map<Coord, Block>, entities: seq<Entity>)
      ensures State() == World(blocks, entities)
    {
      this.blocks := blocks;
      this.entities := entities;
    }
  }

  class ArenaBuildTask {
    const location: Coord
    const schematic: Schematic
    const world: GameWorld
    const iter: RegionIterator
    const offset: Coord
    var editState: int
    var cancelled: bool

    constructor (location: Coord, schematic: Schematic, world: GameWorld)
      ensures this.location == location && this.schematic == schematic && this.world == world
      ensures fresh(iter) && iter.bounds == Box(schematic.min, schematic.max) && iter.State() == Start(iter.bounds)
      ensures offset == Offset(location, schematic)
      ensures editState == UPDATE_BLOCKS_STATE && !cancelled
    {
      this.location := location;
      this.schematic := schematic;
      this.world := world;
      iter := new RegionIterator(schematic.min.x, schematic.min.y, schematic.min.z,
                                 schematic.max.x, schematic.max.y, schematic.max.z);
      offset := Coord(schematic.min.x - schematic.origin.x + location.x,
                      schematic.min.y - schematic.origin.y + location.y,
                      schematic.min.z - schematic.origin.z + location.z);
      editState := UPDATE_BLOCKS_STATE;
      cancelled := false;
    }

    predicate IsDone()
      reads this
    {
      editState == FINISHED_STATE
    }

    /**
     * run(): one tick of the state machine. `copied` is what the foreign
     * entity copy adds to the world in the PLACE_ENTITIES phase (possibly
     * only part of the schematic's entities, if the copy throws). The result
     * is false exactly when the state is out of range (the
     * IllegalStateException branch); nothing changes then.
     */
    method Run(copied: seq<Entity>) returns (ok: bool)
      modifies this, iter, world
      ensures ok == (UPDATE_BLOCKS_STATE <= old(editState) <= FINISHED_STATE)
      ensures old(editState) == UPDATE_BLOCKS_STATE ==>
                var t := OneUpdate(iter.bounds, old(iter.State()), old(world.State()), BLOCKS_PER_TICK, HandleBlock(schematic, offset));
                iter.State() == t.cursor && world.State() == t.world
                && editState == (if t.cursor.done then CLEAR_ENTITIES_STATE else UPDATE_BLOCKS_STATE)
                && cancelled == old(cancelled)
      ensures old(editState) == CLEAR_ENTITIES_STATE ==>
                world.entities == Filter(old(world.entities), Survives(iter.bounds, offset))
                && world.blocks == old(world.blocks) && iter.State() == old(iter.State())
                && editState == PLACE_ENTITIES_STATE && cancelled == old(cancelled)
      ensures old(editState) == PLACE_ENTITIES_STATE ==>
                world.entities == old(world.entities) + copied
                && world.blocks == old(world.blocks) && iter.State() == old(iter.State())
                && editState == FINISHED_STATE && cancelled == old(cancelled)
      ensures old(editState) == FINISHED_STATE ==>
                cancelled && editState == FINISHED_STATE
                && world.State() == old(world.State()) && iter.State() == old(iter.State())
      ensures !ok ==> editState == old(editState) && cancelled == old(cancelled)
                      && world.State() == old(world.State()) && iter.State() == old(iter.State())
    {
      ok := true;
      if editState == UPDATE_BLOCKS_STATE {
        UpdateBlocksState();
      } else if editState == CLEAR_ENTITIES_STATE {
        ClearEntities();
      } else if editState == PLACE_ENTITIES_STATE {
        SpawnEntities(copied);
      } else if editState == FINISHED_STATE {
        cancelled := true;
      } else {
        ok := false;
      }
    }

    method UpdateBlocksState()
      requires editState == UPDATE_BLOCKS_STATE
      modifies this, iter, world
      ensures var t := OneUpdate(iter.bounds, old(iter.State()), old(world.State()), BLOCKS_PER_TICK, HandleBlock(schematic, offset));
              iter.State() == t.cursor && world.State() == t.world
              && editState == (if t.cursor.done then CLEAR_ENTITIES_STATE else UPDATE_BLOCKS_STATE)
              && cancelled == old(cancelled)
    {
      var updated: nat := 0;
      ghost var visited: seq<Coord> := [];
      while updated < BLOCKS_PER_TICK && !iter.IsDone()
        invariant Drive(iter.bounds, iter.State(), world.State(), BLOCKS_PER_TICK, HandleBlock(schematic, offset), updated, visited)
               == OneUpdate(iter.bounds, old(iter.State()), old(world.State()), BLOCKS_PER_TICK, HandleBlock(schematic, offset))
        invariant editState == old(editState) && cancelled == old(cancelled)
        decreases if iter.done then 0 else 1, Remaining(iter.y, iter.bounds.max.y),
                  Remaining(iter.x, iter.bounds.max.x), Remaining(iter.z, iter.bounds.max.z)
      {
        var wrote := HandleBlockAt();
        if wrote {
          updated := updated + 1;
        }
        visited := visited + [iter.State().pos];
        iter.Update();
      }
      if iter.IsDone() {
        editState := editState + 1;
      }
    }

    /** handleBlock, acting on the shared world. */
    method HandleBlockAt() returns (wrote: bool)
      modifies world
      ensures var r := HandleBlock(schematic, offset)(old(world.State()), iter.State().pos);
              world.State() == r.0 && wrote == r.1
    {
      var p := Coord(iter.GetX(), iter.GetY(), iter.GetZ());
      var wp := Coord(p.x + offset.x, p.y + offset.y, p.z + offset.z);
      var current := if wp in world.blocks then world.blocks[wp] else Air;
      var target := FullBlock(schematic, p);
      if current == target {
        return false;
      }
      world.blocks := world.blocks[wp := target];
      return true;
    }

    method ClearEntities()
      requires editState == CLEAR_ENTITIES_STATE
      modifies this, world
      ensures world.entities == Filter(old(world.entities), Survives(iter.bounds, offset))
      ensures world.blocks == old(world.blocks)
      ensures editState == PLACE_ENTITIES_STATE && cancelled == old(cancelled)
    {
      var all := world.entities;
      var kept: seq<Entity> := [];
      var i := 0;
      while i < |all|
        invariant 0 <= i <= |all|
        invariant kept == Filter(all[..i], Survives(iter.bounds, offset))
      {
        var e := all[i];
        assert all[..i + 1][..i] == all[..i];
        if !(e.x >= (iter.GetMinX() + offset.x) as real && e.x <= (iter.GetMaxX() + offset.x) as real
             && e.z >= (iter.GetMinZ() + offset.z) as real && e.z <= (iter.GetMaxZ() + offset.z) as real) {
          kept := kept + [e];
        }
        i := i + 1;
      }
      assert all[..|all|] == all;
      world.entities := kept;
      editState := editState + 1;
    }

    method SpawnEntities(copied: seq<Entity>)
      requires editState == PLACE_ENTITIES_STATE
      modifies this, world
      ensures world.entities == old(world.entities) + copied && world.blocks == old(world.blocks)
      ensures editState == FINISHED_STATE && cancelled == old(cancelled)
    {
      world.entities := world.entities + copied;
      editState := editState + 1;
    }
  }

  /** Within one block-phase tick at most BLOCKS_PER_TICK blocks are written, and the tick stops early only when the region is done. */
  lemma BlockTickBudget(b: Box, c: Cursor, w: World, s: Schematic, off: Coord)
    ensures var t := OneUpdate(b, c, w, BLOCKS_PER_TICK, HandleBlock(s, off));
            t.changed <= BLOCKS_PER_TICK && (t.cursor.done || t.changed == BLOCKS_PER_TICK)
  {
    DriveBudget(b, c, w, BLOCKS_PER_TICK, HandleBlock(s, off), 0, []);
  }
}
