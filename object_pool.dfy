/** The free-list allocator of particles: an array of idle objects and the set of objects handed
    out. The pool is written for any class with a no-argument constructor and an optional
    `reset`; the display only ever allocates `Particle`s from it, so that is the class here. */
module Pool {
  import opened Js
  import opened Particles

  class ObjectPool {
    /** The idle objects; `get` takes from the end. */
    var pool: seq<Particle>
    /** `activeObjects`, a `Set` kept in insertion order. */
    var active: seq<Particle>
    /** How many objects this pool has constructed so far. */
    ghost var constructed: nat

    /** Conservation: no object is both idle and handed out, neither collection repeats an
        object, and together they account for every object the pool constructed. */
    ghost predicate Valid()
      reads this
    {
      Distinct(pool) && Distinct(active)
      && (forall i, j :: 0 <= i < |pool| && 0 <= j < |active| ==> pool[i] != active[j])
      && |pool| + |active| == constructed
    }

    /** Every object the pool knows of owns its vectors. */
    ghost predicate ObjectsValid()
      reads this, pool, active, Footprint(pool), Footprint(active)
    {
      AllValid(pool) && AllValid(active)
    }

    /** `new ObjectPool(Particle, initialSize)`: `initialSize` idle particles, none handed out. */
    constructor (initialSize: int)
      ensures Valid() && ObjectsValid()
      ensures active == [] && |pool| == Iterations(initialSize) && constructed == |pool|
      ensures forall k :: 0 <= k < |pool| ==> fresh(pool[k]) && pool[k].State() == INITIAL
    {
      active := [];
      pool := [];
      constructed := 0;
      new;
      var i := 0;
      while i < initialSize
        invariant |pool| == i == constructed && i <= Iterations(initialSize)
        invariant active == [] && Distinct(pool)
        invariant forall k :: 0 <= k < |pool| ==> fresh(pool[k]) && pool[k].Valid() && pool[k].State() == INITIAL
      {
        var p := new Particle();
        pool := pool + [p];
        constructed := constructed + 1;
        i := i + 1;
      }
    }

    /** `get()`: the last idle object, or a new one when none is idle, joins the handed-out set. */
    method Get() returns (obj: Particle)
      requires Valid() && ObjectsValid()
      modifies this
      ensures Valid() && ObjectsValid() && obj.Valid()
      ensures active == old(active) + [obj]
      ensures old(pool) != [] ==>
        obj == old(pool[|pool| - 1]) && pool == old(pool[..|pool| - 1]) && constructed == old(constructed)
      ensures old(pool) == [] ==>
        fresh(obj) && obj.State() == INITIAL && pool == [] && constructed == old(constructed) + 1
    {
      if |pool| > 0 {
        obj := pool[|pool| - 1];
        pool := pool[..|pool| - 1];
      } else {
        obj := new Particle();
        constructed := constructed + 1;
      }
      active := SetAdd(active, obj);
    }

    /** `release(obj)`: a handed-out object is reset and goes back to the end of the idle list;
        any other object is left alone. */
    method Release(obj: Particle)
      requires Valid() && ObjectsValid()
      modifies this, obj`life, obj`phase, obj`text
      modifies obj.position`x, obj.position`y, obj.position`z, obj.velocity`x, obj.velocity`y, obj.velocity`z
      ensures Valid() && ObjectsValid() && constructed == old(constructed)
      ensures obj !in old(active) ==>
        pool == old(pool) && active == old(active) && obj.State() == old(obj.State())
      ensures obj in old(active) ==>
        active == SetDelete(old(active), obj) && pool == old(pool) + [obj]
        && obj.State() == ResetState(old(obj.State()))
    {
      if obj in active {
        active := SetDelete(active, obj);
        obj.Reset();
        pool := pool + [obj];
      }
    }

    /** `releaseAll()`: every handed-out object, in insertion order, is reset and appended to the
        idle list; then the handed-out set is cleared. */
    method ReleaseAll()
      requires Valid() && ObjectsValid()
      modifies this, active`life, active`phase, active`text
      modifies Moving(active)`x, Moving(active)`y, Moving(active)`z
      ensures Valid() && ObjectsValid() && constructed == old(constructed)
      ensures active == [] && pool == old(pool) + old(active)
      ensures forall p :: p in old(active) ==> p.State() == ResetState(old(p.State()))
    {
      OwnedAreSeparate(active);
      ResetEach(active);
      pool := pool + active;
      active := [];
    }

    /** `getActiveCount()`: the size of the handed-out set. */
    function ActiveCount(): (n: nat)
      reads this
      ensures Valid() ==> n == constructed - |pool|
    {
      |active|
    }

    /** `getAvailableCount()`: the length of the idle list. */
    function AvailableCount(): (n: nat)
      reads this
      ensures Valid() ==> n == constructed - |active|
    {
      |pool|
    }

    /** `expand(count)`: `count` new idle particles; the handed-out set is untouched. */
    method Expand(count: int)
      requires Valid() && ObjectsValid()
      modifies this
      ensures Valid() && ObjectsValid()
      ensures active == old(active) && constructed == old(constructed) + Iterations(count)
      ensures |pool| == |old(pool)| + Iterations(count) && pool[..|old(pool)|] == old(pool)
      ensures forall i :: |old(pool)| <= i < |pool| ==> fresh(pool[i]) && pool[i].State() == INITIAL
    {
      var i := 0;
      while i < count
        invariant 0 <= i && i <= Iterations(count)
        invariant |pool| == |old(pool)| + i && pool[..|old(pool)|] == old(pool)
        invariant active == old(active) && constructed == old(constructed) + i
        invariant Valid() && ObjectsValid()
        invariant forall k :: |old(pool)| <= k < |pool| ==> fresh(pool[k]) && pool[k].State() == INITIAL
      {
        var p := new Particle();
        pool := pool + [p];
        constructed := constructed + 1;
        i := i + 1;
      }
    }
  }
}
