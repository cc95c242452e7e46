/**
 * The scene manager: the list of scenes, the index of the current one, and the process-wide
 * entity id counter the scenes draw from. A small state machine over a sequence and an index.
 */
module SceneManagement {
  import opened Common
  import opened Arena
  import opened Entities
  import opened Scenes

  /** `Config::MAX_SIZE`, the index callers read as "no scene was made". */
  const MaxSize: nat := SizeMax

  /**
   * `copy` is the deep copy of `source` made when the counter had issued `firstIssued` ids:
   * suffixed name, same flag, one entity per source entity in order with the next ids and the
   * source entity's name, flag and component lists, and an arena holding each source entity's
   * components cloned into the copy's arena under the copy entity's id.
   */
  ghost predicate IsCopy(copy: Scene, source: Scene, nameSuffix: string, firstIssued: nat)
    reads copy, copy.Repr, source, source.Repr
    requires copy.Valid() && source.Valid()
  {
    && copy.Name == source.Name + nameSuffix
    && copy.Active == source.Active
    && |copy.entities| == |source.entities|
    && (forall k :: 0 <= k < |copy.entities| ==>
          EntityCopied(copy.entities[k], source.entities[k], IdAt(firstIssued + k)))
    && copy.memory.components == CloneArena(source.memory.components, IdPairs(source.entities, copy.entities), copy.memory)
  }

  /** `copy` is `source` under a new id: same name, flag and component lists. */
  ghost predicate EntityCopied(copy: Entity, source: Entity, id: uint32)
    reads copy, source
  {
    copy.Id == id && copy.Name == source.Name && copy.Active == source.Active
    && copy.components == source.components
  }

  /** The (source id, copy id) pair of each entity position. */
  ghost function IdPairs(sources: seq<Entity>, copies: seq<Entity>): (r: seq<(uint32, uint32)>)
    reads sources, copies
    requires |sources| == |copies|
    ensures |r| == |sources|
    ensures forall k :: 0 <= k < |r| ==> r[k] == (sources[k].Id, copies[k].Id)
  {
    if sources == [] then []
    else
      var n := |sources| - 1;
      IdPairs(sources[..n], copies[..n]) + [(sources[n].Id, copies[n].Id)]
  }

  class SceneManager {
    var scenes: seq<Scene>
    var currentIndex: nat
    const counter: IdCounter
    ghost var Repr: set<object>

    ghost predicate Valid()
      reads this, Repr
    {
      && this in Repr
      && counter in Repr
      && counter.Valid()
      && (forall i :: 0 <= i < |scenes| ==>
            && scenes[i] in Repr
            && scenes[i].Repr <= Repr
            && this !in scenes[i].Repr
            && counter !in scenes[i].Repr
            && scenes[i].Valid())
      && (forall i, j :: 0 <= i < j < |scenes| ==> scenes[i].Repr !! scenes[j].Repr)
      && (if scenes == [] then currentIndex == 0 else currentIndex < |scenes|)
    }

    /** No scenes yet; entity ids come from `counter`. */
    constructor (counter: IdCounter)
      requires counter.Valid()
      ensures Valid() && fresh(Repr - {counter})
      ensures scenes == [] && currentIndex == 0 && this.counter == counter
    {
      scenes := [];
      currentIndex := 0;
      this.counter := counter;
      new;
      Repr := {this, counter};
    }

    /** `CreateScene(name)`: appends a new empty scene; which scene is current does not change. */
    method CreateScene(name: string) returns (scene: Scene)
      requires Valid()
      modifies this
      ensures Valid() && fresh(Repr - old(Repr))
      ensures scenes == old(scenes) + [scene] && currentIndex == old(currentIndex)
      ensures fresh(scene) && scene.Name == name && !scene.Active
      ensures scene.entities == [] && scene.memory.components == map[]
    {
      scene := new Scene.Named(name);
      Append(scene);
    }

    /** Puts a scene that shares nothing with the manager at the end of the list. */
    method Append(scene: Scene)
      requires Valid() && scene.Valid() && scene.Repr !! Repr
      modifies this
      ensures Valid() && Repr == old(Repr) + scene.Repr
      ensures scenes == old(scenes) + [scene] && currentIndex == old(currentIndex)
    {
      scenes := scenes + [scene];
      Repr := Repr + scene.Repr;
    }

    /** `SelectScene(index)`: a valid index becomes current; any other index changes nothing. */
    method SelectScene(index: nat) returns (ok: bool)
      requires Valid()
      modifies this
      ensures Valid() && Repr == old(Repr) && scenes == old(scenes)
      ensures ok <==> index < |scenes|
      ensures currentIndex == if ok then index else old(currentIndex)
    {
      ok := index < |scenes|;
      if ok {
        currentIndex := index;
      }
    }

    /** `SelectScene(name)`: the first scene with that name becomes current, or nothing changes. */
    method SelectSceneByName(name: string) returns (ok: bool)
      requires Valid()
      modifies this
      ensures Valid() && Repr == old(Repr) && scenes == old(scenes)
      ensures ok <==> exists i :: 0 <= i < |scenes| && scenes[i].Name == name
      ensures ok ==> scenes[currentIndex].Name == name
                     && forall i :: 0 <= i < currentIndex ==> scenes[i].Name != name
      ensures !ok ==> currentIndex == old(currentIndex)
    {
      var i := 0;
      while i < |scenes|
        invariant 0 <= i <= |scenes|
        invariant forall k :: 0 <= k < i ==> scenes[k].Name != name
      {
        if scenes[i].Name == name {
          currentIndex := i;
          return true;
        }
        i := i + 1;
      }
      return false;
    }

    /** `SelectScene(scene)`: the referred scene becomes current when it is one of the manager's. */
    method SelectSceneByRef(scene: Scene) returns (ok: bool)
      requires Valid()
      modifies this
      ensures Valid() && Repr == old(Repr) && scenes == old(scenes)
      ensures ok <==> scene in scenes
      ensures ok ==> scenes[currentIndex] == scene
      ensures !ok ==> currentIndex == old(currentIndex)
    {
      var i := 0;
      while i < |scenes|
        invariant 0 <= i <= |scenes|
        invariant scene !in scenes[..i]
      {
        if scenes[i] == scene {
          currentIndex := i;
          return true;
        }
        i := i + 1;
      }
      assert scenes[..i] == scenes;
      return false;
    }

    /** `GetCurrentScene()`: the current scene, or null when there are no scenes. */
    method GetCurrentScene() returns (scene: Scene?)
      requires Valid()
      ensures scene == null <==> scenes == []
      ensures scene != null ==> scene == scenes[currentIndex]
    {
      if scenes == [] {
        scene := null;
      } else {
        scene := scenes[currentIndex];
      }
    }

    /** `DestroyCurrentScene()`: removes the current scene; the one below it becomes current. */
    method DestroyCurrentScene()
      requires Valid()
      modifies this
      ensures Valid() && Repr == old(Repr)
      ensures old(scenes) == [] ==> scenes == [] && currentIndex == old(currentIndex)
      ensures old(scenes) != [] ==>
        && scenes == old(scenes[..currentIndex] + scenes[currentIndex + 1..])
        && currentIndex == if old(currentIndex) > 0 then old(currentIndex) - 1 else 0
    {
      if scenes != [] {
        scenes := scenes[..currentIndex] + scenes[currentIndex + 1..];
        currentIndex := if currentIndex > 0 then currentIndex - 1 else 0;
      }
    }

    /** `DestroyAll()`: no scenes remain. */
    method DestroyAll()
      requires Valid()
      modifies this
      ensures Valid() && Repr == old(Repr)
      ensures scenes == [] && currentIndex == 0
    {
      scenes := [];
      currentIndex := 0;
    }

    /**
     * `CreateCopySceneFromCurrent(nameSuffix)`: appends a deep copy of the current scene and returns
     * its index, leaving the current scene and every existing scene as they were; with no current
     * scene it returns `MaxSize` and changes nothing.
     */
    method CreateCopySceneFromCurrent(nameSuffix: string) returns (index: nat)
      requires Valid()
      modifies this, counter
      ensures Valid() && fresh(Repr - old(Repr))
      ensures currentIndex == old(currentIndex)
      ensures old(scenes) == [] ==> index == MaxSize && scenes == [] && counter.issued == old(counter.issued)
      ensures old(scenes) != [] ==>
        && index == |old(scenes)|
        && |scenes| == index + 1 && scenes[..index] == old(scenes)
        && fresh(scenes[index].Repr)
        && counter.issued == old(counter.issued) + |scenes[currentIndex].entities|
        && IsCopy(scenes[index], scenes[currentIndex], nameSuffix, old(counter.issued))
    {
      if scenes == [] {
        return MaxSize;
      }
      var source := scenes[currentIndex];
      var copy := DeepCopy(source, nameSuffix, counter);
      Append(copy);
      index := |scenes| - 1;
    }
  }

  /** The first `i` entities of `source` are copied into `copy`, whose arena holds their clones. */
  ghost predicate CopiedPrefix(copy: Scene, source: Scene, nameSuffix: string, first: nat,
                               pairs: seq<(uint32, uint32)>, i: nat)
    reads copy, copy.Repr, source, source.Repr
  {
    && copy.Valid() && source.Valid()
    && i <= |source.entities| && |copy.entities| == i && |pairs| == i
    && copy.Name == source.Name + nameSuffix && copy.Active == source.Active
    && (forall k :: 0 <= k < i ==> EntityCopied(copy.entities[k], source.entities[k], IdAt(first + k)))
    && (forall k :: 0 <= k < i ==> pairs[k] == (source.entities[k].Id, copy.entities[k].Id))
    && copy.memory.components == CloneArena(source.memory.components, pairs, copy.memory)
  }

  /** Copies the `i`-th entity of `source`, and its components, into `copy`. */
  method CopyNextEntity(copy: Scene, source: Scene, nameSuffix: string, counter: IdCounter,
                        ghost first: nat, ghost pairs: seq<(uint32, uint32)>, i: nat)
      returns (ghost pairs': seq<(uint32, uint32)>)
    requires CopiedPrefix(copy, source, nameSuffix, first, pairs, i) && i < |source.entities|
    requires copy.Repr !! source.Repr && counter !in copy.Repr && counter !in source.Repr
    requires counter.Valid() && counter.issued == first + i
    modifies copy, copy.memory, counter
    ensures CopiedPrefix(copy, source, nameSuffix, first, pairs', i + 1)
    ensures counter.Valid() && counter.issued == first + i + 1
    ensures fresh(copy.Repr - old(copy.Repr)) && old(copy.Repr) <= copy.Repr
  {
    var e := source.entities[i];
    var c := copy.AppendCopyOf(counter, e, source.memory.components);
    assert (pairs + [(e.Id, c.Id)])[..i] == pairs;
    pairs' := pairs + [(e.Id, c.Id)];
  }

  /** Builds the deep copy of `source`, drawing one id from `counter` per entity. */
  method DeepCopy(source: Scene, nameSuffix: string, counter: IdCounter) returns (copy: Scene)
    requires source.Valid() && counter.Valid() && counter !in source.Repr
    modifies counter
    ensures copy.Valid() && fresh(copy.Repr)
    ensures counter.Valid() && counter.issued == old(counter.issued) + |source.entities|
    ensures IsCopy(copy, source, nameSuffix, old(counter.issued))
  {
    ghost var first := counter.issued;
    copy := new Scene.Named(source.Name + nameSuffix);
    copy.Active := source.Active;
    ghost var pairs: seq<(uint32, uint32)> := [];
    var i := 0;
    while i < |source.entities|
      invariant CopiedPrefix(copy, source, nameSuffix, first, pairs, i)
      invariant fresh(copy.Repr)
      invariant counter.Valid() && counter.issued == first + i
    {
      pairs := CopyNextEntity(copy, source, nameSuffix, counter, first, pairs, i);
      i := i + 1;
    }
    assert pairs == IdPairs(source.entities, copy.entities);
  }

  /**
   * In a copy of a scene with fewer than 2^32 entities, every copy entity's typed lookup is the
   * clone, bound to the copy's arena, of the corresponding source entity's lookup.
   */
  lemma CopyLookup(copy: Scene, source: Scene, nameSuffix: string, firstIssued: nat, k: nat, t: ComponentTypes.ComponentType)
    requires copy.Valid() && source.Valid()
    requires IsCopy(copy, source, nameSuffix, firstIssued)
    requires k < |source.entities| <= Two32
    ensures Lookup(copy.memory.components, copy.entities[k].Id, t)
         == match Lookup(source.memory.components, source.entities[k].Id, t)
            case None => None
            case Some(c) => Some(Clone(c, copy.memory))
    ensures var original := Lookup(source.memory.components, source.entities[k].Id, t);
      var copied := Lookup(copy.memory.components, copy.entities[k].Id, t);
      && (copied.Some? <==> original.Some?)
      && (copied.Some? ==> ValueEqual(copied.value, original.value) && Owner(copied.value) == copy.memory)
  {
    var ids := IdPairs(source.entities, copy.entities);
    forall i, j | 0 <= i < j < |ids|
      ensures ids[i].1 != ids[j].1
    {
      IdsDistinctWithinWindow(firstIssued + i, firstIssued + j);
    }
    CloneArenaAt(source.memory.components, ids, copy.memory, k);
    LookupInClone(source.memory.components, copy.memory.components, source.entities[k].Id,
                  copy.entities[k].Id, copy.memory, t);
  }
}
