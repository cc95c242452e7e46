/**
 * A scene: its name and active flag, the one component arena it owns, and its entities.
 * Component creation and typed lookup are delegated to the scene's own arena.
 */
module Scenes {
  import opened Common
  import opened ComponentTypes
  import opened Arena
  import opened Entities

  /** The name `AddEntity` uses when the caller gives none. */
  const DefaultEntityName: string := "Entity"

  class Scene {
    var Active: bool
    var Name: string
    /** `_memory`, held by value: created with the scene and never shared with another one. */
    const memory: Memory
    var entities: seq<Entity>
    ghost var Repr: set<object>

    ghost predicate Valid()
      reads this, Repr
    {
      && this in Repr
      && memory in Repr
      && (forall e :: e in entities ==> e in Repr && e.Valid())
    }

    /** `Scene() = default`: inactive, unnamed, with an empty arena. */
    constructor ()
      ensures Valid() && fresh(Repr)
      ensures !Active && Name == "" && entities == [] && memory.components == map[]
    {
      Active := false;
      Name := "";
      memory := new Memory();
      entities := [];
      new;
      Repr := {this, memory};
    }

    /** `Scene(name)`: inactive, named `name`, with an empty arena. */
    constructor Named(name: string)
      ensures Valid() && fresh(Repr)
      ensures !Active && Name == name && entities == [] && memory.components == map[]
    {
      Active := false;
      Name := name;
      memory := new Memory();
      entities := [];
      new;
      Repr := {this, memory};
    }

    /** `AddEntity(name = "Entity")`: a new entity with the next id, activated under `name`. */
    method AddEntity(counter: IdCounter, name: string := DefaultEntityName) returns (id: uint32)
      requires Valid() && counter.Valid()
      modifies this, counter
      ensures Valid() && fresh(Repr - old(Repr))
      ensures counter.Valid() && counter.issued == old(counter.issued) + 1
      ensures id == old(counter.next)
      ensures |entities| == |old(entities)| + 1 && entities[..|old(entities)|] == old(entities)
      ensures var e := entities[|old(entities)|];
        && fresh(e) && e.Valid() && e.Id == id && e.Name == ActivatedName(name, id) && e.Active
        && e.components == map[] && e.added == []
      ensures Active == old(Active) && Name == old(Name) && memory.components == old(memory.components)
    {
      var e := new Entity(counter);
      e.Activate(name);
      entities := entities + [e];
      Repr := Repr + {e};
      id := e.Id;
    }

    /**
     * One step of copying a scene into this one: an entity copied from `source` with the next id,
     * and `source`'s components, taken from the source scene's arena, cloned into this arena.
     */
    method AppendCopyOf(counter: IdCounter, source: Entity, sourceArena: ArenaMap) returns (c: Entity)
      requires Valid() && counter.Valid() && source.Valid()
      modifies this, memory, counter
      ensures Valid() && Repr == old(Repr) + {c}
      ensures fresh(c) && entities == old(entities) + [c]
      ensures counter.Valid() && counter.issued == old(counter.issued) + 1
      ensures c.Id == old(counter.next) && c.Name == source.Name && c.Active == source.Active
      ensures c.components == source.components
      ensures memory.components == if source.Id in sourceArena
        then old(memory.components)[c.Id := CloneEntry(sourceArena[source.Id], memory)]
        else old(memory.components)
      ensures Active == old(Active) && Name == old(Name)
    {
      c := new Entity.CopyOf(counter, source);
      entities := entities + [c];
      Repr := Repr + {c};
      if source.Id in sourceArena {
        memory.components := memory.components[c.Id := CloneEntry(sourceArena[source.Id], memory)];
      }
    }

    /** `AddComponent<T>(entityId, args...)`: exactly what this scene's arena creates. */
    method AddComponent(entityId: uint32, prototype: Component) returns (r: Option<Component>)
      requires Valid()
      modifies memory
      ensures Valid()
      ensures (r, memory.components) == Create(old(memory.components), entityId, prototype, memory)
    {
      r := memory.CreateComponent(entityId, prototype);
    }

    /** `GetComponent<T>(entityId)`: this scene's arena lookup; the scene is not changed. */
    method GetComponent(entityId: uint32, t: ComponentType) returns (r: Option<Component>)
      requires Valid()
      ensures r == Lookup(memory.components, entityId, t)
    {
      r := memory.GetComponent(entityId, t);
    }
  }

  /** What a caller can rely on: adding a component to one scene leaves another scene's arena as it was. */
  method AddComponentIsolated(target: Scene, other: Scene, entityId: uint32, prototype: Component)
      returns (r: Option<Component>)
    requires target.Valid() && other.Valid() && target.Repr !! other.Repr
    modifies target.memory
    ensures other.memory.components == old(other.memory.components)
    ensures Lookup(target.memory.components, entityId, TypeOf(prototype)).Some? <==> (r.Some? || Lookup(old(target.memory.components), entityId, TypeOf(prototype)).Some?)
  {
    r := target.AddComponent(entityId, prototype);
    var (c, m) := Create(old(target.memory.components), entityId, prototype, target.memory);
    if c.Some? {
      LookupAfterAttach(old(target.memory.components), entityId, c.value, entityId, TypeOf(prototype));
    }
  }
}
