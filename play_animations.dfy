/**
 * `PlayAnimationsSystem::run`: one pass over the entities that have both
 * an `Animation` and a `SpriteRender` and are loaded; each such animation
 * is advanced once, and its current sprite is written into the render when
 * it differs from the one shown.
 *
 * The animation is an abstract value of type `A`; `update` and `current`
 * stand for `Animation::update` and `Animation::current_sprite_id`, whose
 * bodies are not part of this model.
 */
module PlayAnimations {
  import opened Wrappers
  import opened LoadState
  import SpriteSheets

  /** `SpriteRender`: which sprite of which sheet an entity shows. */
  datatype SpriteRender = SpriteRender(spriteSheet: SpriteSheets.Handle, spriteNumber: nat)

  /** The components of one entity this system reads or writes. */
  datatype Entity<A> = Entity(animation: Option<A>, spriteRender: Option<SpriteRender>, load: LoadComponents)

  /** The join and the filter: both components present, and loaded. */
  predicate Visited<A>(e: Entity<A>)
  {
    e.animation.Some? && e.spriteRender.Some? && IsEntityLoaded(e.load)
  }

  /** Whether the pass assigns `sprite_number` of `e`: the updated
      animation names a sprite, and it is not the one shown. */
  predicate Writes<A>(e: Entity<A>, update: A -> A, current: A -> Option<nat>)
  {
    && Visited(e)
    && current(update(e.animation.value)).Some?
    && current(update(e.animation.value)).value != e.spriteRender.value.spriteNumber
  }

  /** What one pass does to one entity. */
  function Tick<A>(e: Entity<A>, update: A -> A, current: A -> Option<nat>): (r: Entity<A>)
    ensures r.load == e.load
    ensures !Visited(e) ==> r == e
    ensures Visited(e) ==>
      && r.animation == Some(update(e.animation.value))
      && r.spriteRender.Some?
      && r.spriteRender.value.spriteSheet == e.spriteRender.value.spriteSheet
    ensures Visited(e) && current(update(e.animation.value)).Some? ==>
      r.spriteRender.value.spriteNumber == current(update(e.animation.value)).value
    ensures Visited(e) && current(update(e.animation.value)).None? ==>
      r.spriteRender == e.spriteRender
  {
    if !Visited(e) then e
    else
      var animation := update(e.animation.value);
      var render := e.spriteRender.value;
      var render' :=
        match current(animation)
        case Some(id) => if id != render.spriteNumber then render.(spriteNumber := id) else render
        case None => render;
      e.(animation := Some(animation), spriteRender := Some(render'))
  }

  /** What one pass does to every entity. */
  function TickAll<A>(s: seq<Entity<A>>, update: A -> A, current: A -> Option<nat>): (r: seq<Entity<A>>)
    ensures |r| == |s|
    ensures forall i | 0 <= i < |s| :: r[i] == Tick(s[i], update, current)
  {
    seq(|s|, i requires 0 <= i < |s| => Tick(s[i], update, current))
  }

  /** The number of entities the pass visits, and so of `update` calls. */
  function CountVisited<A>(s: seq<Entity<A>>): (n: nat)
    ensures n <= |s|
  {
    if s == [] then 0
    else CountVisited(s[..|s| - 1]) + (if Visited(s[|s| - 1]) then 1 else 0)
  }

  /** The number of assignments to `sprite_number` the pass makes. */
  function CountWrites<A>(s: seq<Entity<A>>, update: A -> A, current: A -> Option<nat>): (n: nat)
    ensures n <= CountVisited(s)
  {
    if s == [] then 0
    else CountWrites(s[..|s| - 1], update, current) + (if Writes(s[|s| - 1], update, current) then 1 else 0)
  }

  /**
   * `run`: the entities are visited in storage order; every visited
   * entity's animation is updated exactly once, and `sprite_number` is
   * assigned only when the current sprite exists and differs from it.
   * `updates` and `writes` count the `update` calls and the assignments.
   */
  method Run<A>(world: array<Entity<A>>, update: A -> A, current: A -> Option<nat>)
    returns (updates: nat, writes: nat)
    modifies world
    ensures world[..] == TickAll(old(world[..]), update, current)
    ensures updates == CountVisited(old(world[..]))
    ensures writes == CountWrites(old(world[..]), update, current)
  {
    updates, writes := 0, 0;
    var i := 0;
    while i < world.Length
      invariant 0 <= i <= world.Length
      invariant forall k | 0 <= k < i :: world[k] == Tick(old(world[k]), update, current)
      invariant forall k | i <= k < world.Length :: world[k] == old(world[k])
      invariant updates == CountVisited(old(world[..])[..i])
      invariant writes == CountWrites(old(world[..])[..i], update, current)
    {
      var e := world[i];
      assert old(world[..])[..i + 1][..i] == old(world[..])[..i];
      if Visited(e) {
        var animation := update(e.animation.value);
        updates := updates + 1;
        var render := e.spriteRender.value;
        match current(animation) {
          case Some(id) =>
            if id != render.spriteNumber {
              render := render.(spriteNumber := id);
              writes := writes + 1;
            }
          case None =>
        }
        world[i] := e.(animation := Some(animation), spriteRender := Some(render));
      }
      i := i + 1;
    }
    assert old(world[..])[..world.Length] == old(world[..]);
  }

  /** Entities that are not loaded are left exactly as they were. */
  lemma UnloadedUntouched<A>(e: Entity<A>, update: A -> A, current: A -> Option<nat>)
    requires !IsEntityLoaded(e.load)
    ensures Tick(e, update, current) == e
    ensures !Writes(e, update, current)
  {
  }

  /** Entities missing the animation or the render are not visited. */
  lemma IncompleteUntouched<A>(e: Entity<A>, update: A -> A, current: A -> Option<nat>)
    requires e.animation.None? || e.spriteRender.None?
    ensures Tick(e, update, current) == e
  {
  }

  /** A write happens exactly when the pass changes the sprite shown. */
  lemma WritesIffChanged<A>(e: Entity<A>, update: A -> A, current: A -> Option<nat>)
    ensures Writes(e, update, current) <==> Tick(e, update, current).spriteRender != e.spriteRender
  {
    if Visited(e) && Tick(e, update, current).spriteRender != e.spriteRender {
      assert current(update(e.animation.value)).Some?;
    }
  }

  /** When the animation stays on the same sprite from one pass to the
      next, the second pass writes nothing. */
  lemma SteadySpriteWritesNothing<A>(e: Entity<A>, update: A -> A, current: A -> Option<nat>)
    requires Visited(e)
    requires current(update(update(e.animation.value))) == current(update(e.animation.value))
    ensures !Writes(Tick(e, update, current), update, current)
  {
  }

  /** The entities picked from `s` at the positions `p`, in that order. */
  function Pick<T>(s: seq<T>, p: seq<nat>): (r: seq<T>)
    requires forall k | 0 <= k < |p| :: p[k] < |s|
    ensures |r| == |p| && forall k | 0 <= k < |p| :: r[k] == s[p[k]]
  {
    seq(|p|, k requires 0 <= k < |p| => s[p[k]])
  }

  /** Each entity's outcome depends on its own components only, so the
      pass gives the same result in any visiting order. */
  lemma OrderIndependent<A>(s: seq<Entity<A>>, p: seq<nat>, update: A -> A, current: A -> Option<nat>)
    requires forall k | 0 <= k < |p| :: p[k] < |s|
    ensures TickAll(Pick(s, p), update, current) == Pick(TickAll(s, update, current), p)
  {
  }

  /** The counts do not depend on where an entity sits in the storage:
      moving the last entity to the front changes neither count. */
  lemma {:induction false} CountsRotate<A>(s: seq<Entity<A>>, update: A -> A, current: A -> Option<nat>)
    requires s != []
    ensures CountVisited([s[|s| - 1]] + s[..|s| - 1]) == CountVisited(s)
    ensures CountWrites([s[|s| - 1]] + s[..|s| - 1], update, current) == CountWrites(s, update, current)
  {
    var last := s[|s| - 1];
    var init := s[..|s| - 1];
    CountsPrepend(last, init, update, current);
  }

  /** Putting an entity in front adds its own contribution to each count. */
  lemma {:induction false} CountsPrepend<A>(e: Entity<A>, s: seq<Entity<A>>, update: A -> A, current: A -> Option<nat>)
    ensures CountVisited([e] + s) == CountVisited(s) + (if Visited(e) then 1 else 0)
    ensures CountWrites([e] + s, update, current) == CountWrites(s, update, current) + (if Writes(e, update, current) then 1 else 0)
    decreases |s|
  {
    if s != [] {
      var t := [e] + s;
      assert t[..|t| - 1] == [e] + s[..|s| - 1];
      assert t[|t| - 1] == s[|s| - 1];
      CountsPrepend(e, s[..|s| - 1], update, current);
    } else {
      assert [e][..0] == [];
    }
  }
}
