/** The star pool of the performance optimizer: a first-in first-out queue of
    deactivated star objects, bounded by a maximum size. A destroyed object is
    one whose `alive` flag is down. The frame-rate counter, the memory readout
    and the quality settings of the same component are not part of this
    model. */
module StarPool {

  /** A star game object, as far as the pool sees it. */
  class StarObject {
    var active: bool
    var alive: bool

    constructor ()
      ensures active && alive
    {
      active := true;
      alive := true;
    }

    /** An independent copy of this object, as the engine instantiates it. */
    method Instantiate() returns (copy: StarObject)
      ensures fresh(copy) && copy.alive && copy.active == active
    {
      copy := new StarObject();
      copy.active := active;
    }
  }

  class PerformanceOptimizer {
    // configuration
    const poolMaxSize: int
    /** The prefab copied when the pool is empty; no code ever assigns it. */
    const starPrefab: StarObject?

    // state
    var starPool: seq<StarObject>

    ghost predicate Valid()
      reads this
    {
      |starPool| <= poolMaxSize || starPool == []
    }

    /** The component as the scene creates it: an empty pool and no prefab (the
        pool's initialization only looks for the spawner and assigns
        nothing). */
    constructor (poolMaxSize: int)
      ensures Valid()
      ensures this.poolMaxSize == poolMaxSize && starPrefab == null && starPool == []
    {
      this.poolMaxSize := poolMaxSize;
      starPrefab := null;
      starPool := [];
    }

    /** Takes the oldest pooled star and activates it; with an empty pool, a copy
        of the prefab when there is one and nothing otherwise. A pooled star
        that was destroyed behind the pool's back cannot be activated (the
        engine throws), so the head of the queue must still exist. */
    method GetStarFromPool() returns (star: StarObject?)
      requires Valid()
      requires starPool != [] ==> starPool[0].alive
      modifies this, if starPool != [] then {starPool[0]} else {}
      ensures Valid()
      ensures old(starPool) != [] ==>
                && star == old(starPool[0]) && star.active && star.alive
                && starPool == old(starPool[1..])
      ensures old(starPool) == [] && starPrefab == null ==> star == null && starPool == []
      ensures old(starPool) == [] && starPrefab != null ==>
                star != null && fresh(star) && star.alive && starPool == []
    {
      if |starPool| > 0 {
        star := starPool[0];
        starPool := starPool[1..];
        star.active := true;
        return star;
      }
      if starPrefab != null {
        star := starPrefab.Instantiate();
        return star;
      }
      return null;
    }

    /** Deactivates a star and puts it at the back of the queue while the pool
        is below its maximum size; otherwise destroys it. */
    method ReturnStarToPool(star: StarObject)
      requires Valid() && star.alive
      modifies this, star
      ensures Valid()
      ensures old(|starPool|) < poolMaxSize ==>
                starPool == old(starPool) + [star] && !star.active && star.alive
      ensures old(|starPool|) >= poolMaxSize ==>
                starPool == old(starPool) && !star.alive && star.active == old(star.active)
    {
      if |starPool| < poolMaxSize {
        star.active := false;
        starPool := starPool + [star];
      } else {
        star.alive := false;
      }
    }

    /** Empties the queue from the front, destroying every pooled object that
        still exists; objects outside the pool are untouched. */
    method ClearPool()
      requires Valid()
      modifies this, set s | s in starPool
      ensures Valid()
      ensures starPool == []
      ensures forall s :: s in old(starPool) ==> !s.alive
      ensures forall s :: s in old(starPool) ==> s.active == old(s.active)
    {
      ghost var queued := starPool;
      ghost var k := 0;
      while |starPool| > 0
        invariant 0 <= k <= |queued|
        invariant starPool == queued[k..]
        invariant forall j :: 0 <= j < k ==> !queued[j].alive
        invariant forall s :: s in queued ==> s.active == old(s.active)
        decreases |starPool|
      {
        var obj := starPool[0];
        starPool := starPool[1..];
        if obj.alive {
          obj.alive := false;
        }
        k := k + 1;
      }
      forall s | s in queued
        ensures !s.alive
      {
        var j :| 0 <= j < |queued| && queued[j] == s;
      }
    }
  }
}
