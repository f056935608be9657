/**
 * The load-state components of an entity: `Loadable`, which marks an
 * entity as one that may be loaded and unloaded later and carries a
 * padding per axis, and `Loaded`, a marker without data whose presence on
 * the entity is all it conveys.
 */
module LoadState {
  import opened Wrappers

  /** Padding along the x and the y axis, each optional. The `f32` values
      are only stored, never computed with, and appear here as `real`. */
  type Padding = (Option<real>, Option<real>)

  datatype Loadable = Loadable(padding: Padding)

  /** `Loadable::default()`: no padding on either axis. */
  function DefaultLoadable(): (l: Loadable)
    ensures l.padding.0 == None && l.padding.1 == None
  {
    Loadable((None, None))
  }

  /** `with_padding`: the same loadable with its padding replaced. */
  function WithPadding(l: Loadable, padding: Padding): (r: Loadable)
    ensures r.padding == padding
  {
    l.(padding := padding)
  }

  /** Setting the padding twice keeps only the second value. */
  lemma WithPaddingLastWins(l: Loadable, p: Padding, q: Padding)
    ensures WithPadding(WithPadding(l, p), q) == WithPadding(l, q)
  {
  }

  /** The result of `with_padding` does not depend on the earlier padding. */
  lemma WithPaddingForgets(l: Loadable, m: Loadable, p: Padding)
    ensures WithPadding(l, p) == WithPadding(m, p)
  {
  }

  /** Either axis may be padded without the other. */
  lemma PaddingAxesIndependent(x: Option<real>, y: Option<real>)
    ensures WithPadding(DefaultLoadable(), (x, None)).padding.0 == x
    ensures WithPadding(DefaultLoadable(), (None, y)).padding.1 == y
    ensures WithPadding(DefaultLoadable(), (x, y)).padding == (x, y)
  {
  }

  /** The load-state components one entity holds: an optional `Loadable`,
      and whether the `Loaded` marker is present (its storage holds no data,
      only presence). */
  datatype LoadComponents = LoadComponents(loadable: Option<Loadable>, loaded: bool)

  /** Inserting the `Loaded` marker. */
  function AttachLoaded(c: LoadComponents): (r: LoadComponents)
    ensures r.loaded && r.loadable == c.loadable
  {
    c.(loaded := true)
  }

  /** Removing the `Loaded` marker. */
  function DetachLoaded(c: LoadComponents): (r: LoadComponents)
    ensures !r.loaded && r.loadable == c.loadable
  {
    c.(loaded := false)
  }

  /** Attaching the marker twice is attaching it once, and removing it
      undoes attaching it. */
  lemma AttachDetachLaws(c: LoadComponents)
    ensures AttachLoaded(AttachLoaded(c)) == AttachLoaded(c)
    ensures DetachLoaded(DetachLoaded(c)) == DetachLoaded(c)
    ensures DetachLoaded(AttachLoaded(c)) == DetachLoaded(c)
    ensures !c.loaded ==> DetachLoaded(AttachLoaded(c)) == c
  {
  }

  /**
   * `is_entity_loaded`: an entity with `Loadable` counts as loaded exactly
   * when it also has `Loaded`; an entity without `Loadable` always counts
   * as loaded (the function's body is not part of this model, and this
   * second rule is an assumption).
   */
  predicate IsEntityLoaded(c: LoadComponents)
    ensures c.loaded ==> IsEntityLoaded(c)
    ensures !IsEntityLoaded(c) ==> c.loadable.Some?
  {
    c.loadable.None? || c.loaded
  }

  /** With `Loadable`, being loaded is having `Loaded`; without it, the
      marker makes no difference. */
  lemma LoadedGating(c: LoadComponents)
    ensures c.loadable.Some? ==> (IsEntityLoaded(c) <==> c.loaded)
    ensures c.loadable.None? ==> IsEntityLoaded(AttachLoaded(c)) && IsEntityLoaded(DetachLoaded(c))
    ensures c.loadable.Some? ==> IsEntityLoaded(AttachLoaded(c)) && !IsEntityLoaded(DetachLoaded(c))
  {
  }
}
