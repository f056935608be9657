/**
 * `CollisionTag::collides_with`, which decides whether two colliders'
 * tags let them collide. The trait itself asks nothing of the relation;
 * the crate gives two implementations, kept apart here as two types. The
 * equality-based one exists only when the crate's `debug` feature is
 * enabled; a default build has only the unit implementation.
 */
module CollisionTags {
  /** The unit tag `()`. */
  datatype UnitTag = UnitTag

  /** The unit implementation: every tag collides with every tag. */
  function UnitCollidesWith(a: UnitTag, b: UnitTag): (r: bool)
    ensures r
  {
    true
  }

  /** The blanket implementation for tag types with equality: tags collide
      exactly when they are equal. */
  function EqualCollidesWith<T(==)>(a: T, b: T): (r: bool)
    ensures r <==> a == b
  {
    a == b
  }

  /** A tag relation, as an implementation of the trait supplies it. */
  ghost predicate Reflexive<T(!new)>(collides: (T, T) -> bool)
  {
    forall a :: collides(a, a)
  }

  ghost predicate Symmetric<T(!new)>(collides: (T, T) -> bool)
  {
    forall a, b :: collides(a, b) == collides(b, a)
  }

  /** The unit relation is reflexive and symmetric. */
  lemma UnitRelationLaws()
    ensures Reflexive(UnitCollidesWith)
    ensures Symmetric(UnitCollidesWith)
  {
  }

  /** The equality relation is reflexive and symmetric. */
  lemma EqualRelationLaws<T(!new)>()
    ensures Reflexive(EqualCollidesWith<T>)
    ensures Symmetric(EqualCollidesWith<T>)
  {
  }

  /** The trait admits relations that are not symmetric, such as tags
      ranked by number where a tag collides only with higher ranks. */
  lemma CustomRelationMayBeAsymmetric()
    ensures !Symmetric((a: int, b: int) => a < b)
  {
    var lower := (a: int, b: int) => a < b;
    assert lower(0, 1) != lower(1, 0);
  }
}
