/**
 * The per-scene component arena (`Memory::Memory`), kept abstract: for each entity id, for each
 * component type, the components of that type attached to the entity in the order they were
 * created. Slot 0 is the canonical instance a typed lookup returns. Creation checks the type's
 * declared dependencies against the entity's current components and binds the new component
 * to this arena.
 */
module Arena {
  import opened Common
  import opened ComponentTypes
  import Sprites

  /** Only the arena binding of a transform is modelled; its position, rotation and scale are floating point. */
  datatype TransformComponent = TransformComponent(memory: object?)

  /** A component of one of the modelled types. */
  datatype Component = AsTransform(transform: TransformComponent) | AsSprite(sprite: Sprites.SpriteComponent)

  function TypeOf(c: Component): ComponentType
  {
    match c
    case AsTransform(_) => TransformType
    case AsSprite(_) => SpriteType
  }

  /** The arena a component is bound to. */
  function Owner(c: Component): object?
  {
    match c
    case AsTransform(t) => t.memory
    case AsSprite(s) => s.memory
  }

  /** The static `Dependencies()` of each type. */
  function Dependencies(t: ComponentType): seq<ComponentType>
  {
    match t
    case TransformType => []
    case SpriteType => Sprites.Dependencies()
  }

  /** `CloneInto(newMemory, ...)` of any component: the same value bound to `newMemory`. */
  function Clone(c: Component, newMemory: object?): (r: Component)
    ensures TypeOf(r) == TypeOf(c) && Owner(r) == newMemory
    ensures c.AsSprite? ==> r.AsSprite? && Sprites.SameValue(r.sprite, c.sprite)
  {
    match c
    case AsTransform(t) => AsTransform(TransformComponent(newMemory))
    case AsSprite(s) => AsSprite(Sprites.CopyFrom(newMemory, s))
  }

  /**
   * Two components hold the same value: they are of the same type and agree on every field but
   * the arena they are bound to. A transform's modelled state is its binding alone.
   */
  predicate ValueEqual(a: Component, b: Component)
  {
    match (a, b)
    case (AsTransform(_), AsTransform(_)) => true
    case (AsSprite(x), AsSprite(y)) => Sprites.SameValue(x, y)
    case _ => false
  }

  type Entry = map<ComponentType, seq<Component>>
  type ArenaMap = map<uint32, Entry>

  function EntryOf(m: ArenaMap, entityId: uint32): Entry
  {
    if entityId in m then m[entityId] else map[]
  }

  /** The components of type `t` attached to the entity, in slot order. */
  function Slots(m: ArenaMap, entityId: uint32, t: ComponentType): seq<Component>
  {
    var e := EntryOf(m, entityId);
    if t in e then e[t] else []
  }

  /** The typed lookup: slot 0, or nothing when the entity has no component of that type. */
  function Lookup(m: ArenaMap, entityId: uint32, t: ComponentType): (r: Option<Component>)
    ensures r.None? <==> Slots(m, entityId, t) == []
    ensures r.Some? ==> r.value == Slots(m, entityId, t)[0]
  {
    var s := Slots(m, entityId, t);
    if s == [] then None else Some(s[0])
  }

  /** Every declared dependency of `t` is already attached to the entity. */
  predicate DependenciesMet(m: ArenaMap, entityId: uint32, t: ComponentType)
  {
    forall d :: d in Dependencies(t) ==> Lookup(m, entityId, d).Some?
  }

  /** The arena after appending `c` to its type's slots for the entity. */
  function Attach(m: ArenaMap, entityId: uint32, c: Component): ArenaMap
  {
    var e := EntryOf(m, entityId);
    m[entityId := e[TypeOf(c) := Slots(m, entityId, TypeOf(c)) + [c]]]
  }

  function CloneAll(cs: seq<Component>, newMemory: object?): (r: seq<Component>)
    ensures |r| == |cs|
    ensures forall i :: 0 <= i < |cs| ==> r[i] == Clone(cs[i], newMemory)
  {
    seq(|cs|, i requires 0 <= i < |cs| => Clone(cs[i], newMemory))
  }

  /** One entity's components, every one cloned into `newMemory`, in the same slots. */
  function CloneEntry(e: Entry, newMemory: object?): (r: Entry)
    ensures r.Keys == e.Keys
    ensures forall t :: t in e ==> r[t] == CloneAll(e[t], newMemory)
  {
    map t | t in e :: CloneAll(e[t], newMemory)
  }

  /**
   * The arena of a copied scene: for each (source id, copy id) pair in order, the source entity's
   * components cloned into `newMemory`, filed under the copy's id.
   */
  function CloneArena(src: ArenaMap, ids: seq<(uint32, uint32)>, newMemory: object?): ArenaMap
  {
    if ids == [] then map[]
    else
      var m := CloneArena(src, ids[..|ids| - 1], newMemory);
      var (from, to) := ids[|ids| - 1];
      if from in src then m[to := CloneEntry(src[from], newMemory)] else m
  }

  /** The outcome of `CreateComponent`: the new component, or a dependency error with nothing changed. */
  function Create(m: ArenaMap, entityId: uint32, prototype: Component, memory: object?): (Option<Component>, ArenaMap)
  {
    if DependenciesMet(m, entityId, TypeOf(prototype)) then
      var c := Clone(prototype, memory);
      (Some(c), Attach(m, entityId, c))
    else
      (None, m)
  }

  class Memory {
    var components: ArenaMap

    constructor ()
      ensures components == map[]
    {
      components := map[];
    }

    /**
     * `CreateComponent<T>(entityId, args...)`: `prototype` carries the constructor arguments;
     * the component built from them is bound to this arena.
     */
    method CreateComponent(entityId: uint32, prototype: Component) returns (r: Option<Component>)
      modifies this
      ensures (r, components) == Create(old(components), entityId, prototype, this)
    {
      var (c, m) := Create(components, entityId, prototype, this);
      r, components := c, m;
    }

    /** `GetComponent<T>(entityId)`: slot 0 of type `t`, or null. */
    method GetComponent(entityId: uint32, t: ComponentType) returns (r: Option<Component>)
      ensures r == Lookup(components, entityId, t)
    {
      r := Lookup(components, entityId, t);
    }
  }

  /** A sprite can be created exactly when the entity already has a transform. */
  lemma SpriteNeedsTransform(m: ArenaMap, entityId: uint32)
    ensures DependenciesMet(m, entityId, SpriteType) <==> Lookup(m, entityId, TransformType).Some?
  {
    assert Dependencies(SpriteType) == [TransformType];
  }

  /**
   * Creation succeeds exactly when the dependencies are met; a failure changes nothing, and a
   * success attaches a component value-equal to the prototype and bound to the arena.
   */
  lemma CreateOutcome(m: ArenaMap, entityId: uint32, prototype: Component, memory: object?)
    ensures var (r, m') := Create(m, entityId, prototype, memory);
      && (r.Some? <==> DependenciesMet(m, entityId, TypeOf(prototype)))
      && (r.None? ==> m' == m)
      && (r.Some? ==> ValueEqual(r.value, prototype) && Owner(r.value) == memory
                      && TypeOf(r.value) == TypeOf(prototype))
  {
  }

  /**
   * A component is fixed by its value and its arena: two value-equal components bound to the
   * same arena are the same component. So `Clone`'s contract determines the clone completely.
   */
  lemma ValueAndOwnerDetermine(a: Component, b: Component)
    requires ValueEqual(a, b) && Owner(a) == Owner(b)
    ensures a == b
  {
  }

  /** Cloning a clone is cloning the original. */
  lemma CloneTwice(c: Component, first: object?, second: object?)
    ensures Clone(Clone(c, first), second) == Clone(c, second)
  {
    match c
    case AsTransform(_) =>
    case AsSprite(s) => Sprites.CopyOfCopy(s, first, second);
  }

  /**
   * After attaching `c`, the lookup of its type on that entity is the old canonical instance if
   * there was one and `c` otherwise; every other (entity, type) keeps its slots.
   */
  lemma LookupAfterAttach(m: ArenaMap, entityId: uint32, c: Component, otherId: uint32, t: ComponentType)
    ensures Lookup(Attach(m, entityId, c), entityId, TypeOf(c))
         == if Lookup(m, entityId, TypeOf(c)).Some? then Lookup(m, entityId, TypeOf(c)) else Some(c)
    ensures (otherId, t) != (entityId, TypeOf(c)) ==> Slots(Attach(m, entityId, c), otherId, t) == Slots(m, otherId, t)
  {
  }

  /**
   * In a cloned arena whose copy ids are pairwise distinct, the copy of the k-th entity holds
   * exactly the clones of the source entity's components, slot for slot.
   */
  lemma {:induction false} CloneArenaAt(src: ArenaMap, ids: seq<(uint32, uint32)>, newMemory: object?, k: nat)
    requires k < |ids|
    requires forall i, j :: 0 <= i < j < |ids| ==> ids[i].1 != ids[j].1
    ensures EntryOf(CloneArena(src, ids, newMemory), ids[k].1) == CloneEntry(EntryOf(src, ids[k].0), newMemory)
  {
    var n := |ids| - 1;
    var m := CloneArena(src, ids[..n], newMemory);
    if k < n {
      CloneArenaAt(src, ids[..n], newMemory, k);
      assert ids[n].1 != ids[k].1;
    } else {
      CloneArenaMisses(src, ids[..n], newMemory, ids[k].1);
      if ids[k].0 !in src {
        assert CloneEntry(map[], newMemory) == map[];
      }
    }
  }

  /** A copy id that no pair mentions has no entry in the cloned arena. */
  lemma {:induction false} CloneArenaMisses(src: ArenaMap, ids: seq<(uint32, uint32)>, newMemory: object?, id: uint32)
    requires forall i :: 0 <= i < |ids| ==> ids[i].1 != id
    ensures id !in CloneArena(src, ids, newMemory)
  {
    if ids != [] {
      CloneArenaMisses(src, ids[..|ids| - 1], newMemory, id);
    }
  }

  /** Typed lookups in a cloned entry are the clones of the source's lookups. */
  lemma LookupInClone(src: ArenaMap, dst: ArenaMap, fromId: uint32, toId: uint32, newMemory: object?, t: ComponentType)
    requires EntryOf(dst, toId) == CloneEntry(EntryOf(src, fromId), newMemory)
    ensures Lookup(dst, toId, t) == match Lookup(src, fromId, t)
                                    case None => None
                                    case Some(c) => Some(Clone(c, newMemory))
  {
  }
}
