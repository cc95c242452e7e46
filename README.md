# Low Engine core, modelled in Dafny

This project models the entity, scene and asset core of the Low Engine game engine, plus two
pieces of non-UI logic from its editor. It covers:

- **Entities** (`Entities`): every entity takes its id from one process-wide `uint32_t` counter. An
  entity also has a name, an active flag, and a map from component-type name to the component slot
  ids added under that type.
- **Components** (`Sprites`, `Arena`): the sprite component has a texture id, a sprite and a layer.
  It also keeps a back-reference to the arena that holds it. Its copy constructor and `CloneInto`
  rebind the copy to another arena. Its declared dependency is the transform component.
- **The per-scene arena** (`Arena`): this is kept abstract, as a map from entity id to component
  type to the components of that type, in creation order. `CreateComponent` checks the type's
  declared dependencies. A typed lookup returns slot 0.
- **Scenes** (`Scenes`): a scene has a name and an active flag. It owns one arena by value and holds
  its entities. Adding components and looking them up goes through the scene's own arena.
- **The scene manager** (`SceneManagement`): a list of scenes with the index of the current one.
  It supports create, select (by index, by name, by reference), get current, destroy current and
  destroy all. It can also make a deep copy of the current scene, which is the editor's play-mode
  sandbox.
- **The asset registry** (`AssetRegistry`): the texture table, whose entry 0 is the default
  texture; texture aliases; and one animation sheet per texture id.
- **Editor helpers** (`DevTools`): `InsertSpaces`, which turns a CamelCase name into a spaced
  label, and the search for the playing clip's index in the animated-sprite panel.

Some things are inputs to the model:

- Texture loading is an input: a call that loads a file is given the resulting texture, or `None`
  when SFML threw.
- The static entity counter is an explicit `IdCounter` object that the scenes draw from.
- Thrown exceptions become `Failure`/`Fail` results.

Ids, `int32_t` casts and `size_t` conversions are modelled with their C++ widths. The entity counter
wraps modulo 2^32. `static_cast<int32_t>` of a size keeps the low 32 bits as two's complement. A
negative `int32_t` compared with a `size_t` becomes 2^64 plus its value.

Entity ids are meant to come from one process-wide counter that only ever grows. The code
declares that counter `uint32_t` and post-increments it (low-engine/ecs/Entity.cpp:6 and :9), so
ids wrap after 2^32 entities. The model follows the code. `Entities.IdsDistinctWithinWindow` and `Entities.IdsRepeatAfterWrap` state both sides of this:
ids are distinct within any window of fewer than 2^32 constructions, and repeat after that.

## Model

| member | source | states |
|---|---|---|
| Common.Int32Of | low-engine/assets/Assets.cpp:20 | the `int32_t` cast of a size agrees with it modulo 2^32, and equals it below 2^31 |
| Common.SizeOf | low-engine/assets/Assets.cpp:118 | a non-negative `int32_t` keeps its value as a `size_t`; a negative one becomes larger than 2^64 - 1 - 2^31 |
| Sprites.Default | low-engine/ecs/Components/SpriteComponent.h:14-20 | a default sprite component has texture id 0 and layer 0, draws the registry's default texture, and is bound to the given arena |
| Sprites.CopyFrom | low-engine/ecs/Components/SpriteComponent.h:22-24 | the copy holds exactly `other`'s texture id, sprite and layer, and is bound to the new arena |
| Sprites.CloneInto | low-engine/ecs/Components/SpriteComponent.h:28-30 | the caller's storage ends up holding the copy bound to `newMemory`; the source is a value and is not changed |
| Sprites.Dependencies | low-engine/ecs/Components/SpriteComponent.h:32-37 | the dependency list is exactly the one-element list of the transform type |
| Sprites.Initialize | low-engine/ecs/Components/SpriteComponent.h:39-40 | initialising changes nothing in the component |
| Sprites.Draw | low-engine/ecs/Components/SpriteComponent.h:44-46 | drawing yields the component's own sprite |
| Sprites.CloneDrawsAsSource | low-engine/ecs/Components/SpriteComponent.h:28-30 | a clone draws what its source draws, and equals the source exactly when it is bound to the source's own arena |
| Sprites.CopyOfCopy | low-engine/ecs/Components/SpriteComponent.h:22-24 | copying a copy is copying the original, and copying into the same arena is the identity |
| Arena.Clone | low-engine/ecs/Components/SpriteComponent.h:28-30 | cloning any component keeps its type and binds it to the new arena; a cloned sprite keeps exactly the source's texture id, sprite and layer |
| Arena.ValueAndOwnerDetermine | low-engine/ecs/Components/SpriteComponent.h:22-30 | value-equal components bound to the same arena are identical, so the clone's contract fixes the clone completely |
| Arena.Lookup | low-engine/scene/Scene.h:27-30 | a typed lookup is empty exactly when the entity has no component of that type, and is slot 0 otherwise |
| Arena.Memory.CreateComponent | low-engine/scene/Scene.h:22-25 | the arena's new state and result are the outcome of `Create`: dependency check, then the component bound to this arena appended to its type's slots |
| Arena.Memory.GetComponent | low-engine/scene/Scene.h:27-30 | the arena's typed lookup, with nothing changed |
| Arena.SpriteNeedsTransform | low-engine/ecs/Components/SpriteComponent.h:32-37 | a sprite's dependencies are met exactly when the entity already has a transform |
| Arena.CreateOutcome | low-engine/scene/Scene.h:22-25 | creation succeeds exactly when the dependencies are met; on failure the arena is unchanged; on success the result has the prototype's type and field values (for a sprite its texture id, sprite and layer) and is bound to the arena |
| Arena.CloneTwice | low-engine/ecs/Components/SpriteComponent.h:28-30 | cloning a clone is cloning the original |
| Arena.LookupAfterAttach | low-engine/scene/Scene.h:22-30 | after a component is attached, the typed lookup returns the old slot 0 if there was one and the new component otherwise; every other entity and type keeps its slots |
| Arena.CloneArenaAt | low-engine/scene/SceneManager.h:30-35 | in a copied arena whose new ids are distinct, each copy entity holds exactly the clones of its source entity's components, slot for slot |
| Arena.CloneArenaMisses | low-engine/scene/SceneManager.h:30-35 | a copied arena has no entry for an id that no copy entity carries |
| Arena.LookupInClone | low-engine/scene/SceneManager.h:30-35 | typed lookups in a cloned entry are the clones of the source's lookups |
| Entities.IdAt | low-engine/ecs/Entity.cpp:6-9 | the k-th constructed entity's id equals k while k is below 2^32 |
| Entities.IdsDistinctWithinWindow | low-engine/ecs/Entity.cpp:6-10 | entities constructed fewer than 2^32 constructions apart have different ids |
| Entities.IdsIncreaseBeforeWrap | low-engine/ecs/Entity.cpp:6-10 | before the counter wraps, later entities have strictly larger ids |
| Entities.IdsRepeatAfterWrap | low-engine/ecs/Entity.cpp:6-9 | the 2^32-th construction after an entity reuses its id |
| Entities.IdAtStep | low-engine/ecs/Entity.cpp:9 | one post-increment of the `uint32_t` counter moves from the k-th id to the (k+1)-th |
| Entities.IdCounter.constructor | low-engine/ecs/Entity.cpp:6 | the counter starts at 0 with nothing issued |
| Entities.IdCounter.Take | low-engine/ecs/Entity.cpp:9 | returns the counter's prior value and advances it by one modulo 2^32 |
| Entities.ToDecimal | low-engine/ecs/Entity.cpp:18 | `to_string` of an unsigned value is a non-empty string of decimal digits with no leading zero |
| Entities.DecimalRoundTrip | low-engine/ecs/Entity.cpp:18 | reading back the decimal digits gives the number |
| Entities.ActivatedNameSplits | low-engine/ecs/Entity.cpp:17-20 | an activated name splits at its last underscore into the requested name and the decimal id, which reads back as the id |
| Entities.ReplayIsHistory | low-engine/ecs/Entity.cpp:22-28 | the component map has a list for exactly the types something was added under, holding every id added under it, oldest first |
| Entities.FirstAddedIsStable | low-engine/ecs/Entity.cpp:26-28 | a later addition, under any type, does not change a type's first id |
| Entities.Entity.constructor | low-engine/ecs/Entity.cpp:8-10 | the new entity's id is the counter's prior value, and the counter advances by one |
| Entities.Entity.CopyOf | low-engine/scene/SceneManager.h:30-35 | a scene copy's entity takes the next id and the source's name, flag, component lists and their history, so it is as consistent as its source |
| Entities.Entity.InitAsDefault | low-engine/ecs/Entity.cpp:12-15 | the name becomes "Default" and the entity is active; id and components are unchanged |
| Entities.Entity.Activate | low-engine/ecs/Entity.cpp:17-20 | the name becomes `name + "_" + to_string(Id)` and the entity is active; id and components are unchanged |
| Entities.Entity.AddComponent | low-engine/ecs/Entity.cpp:22-24 | the id is appended to its type's list, and a missing type starts from an empty list; every other type keeps its list |
| Entities.Entity.GetComponent | low-engine/ecs/Entity.cpp:26-28 | for a type with a non-empty list, returns the first id ever added under it |
| Scenes.Scene.constructor | low-engine/scene/Scene.h:10-13 | a default scene is inactive and unnamed, with no entities and an empty arena |
| Scenes.Scene.Named | low-engine/scene/Scene.h:14 | a named scene is inactive, with no entities and an empty arena |
| Scenes.Scene.AddEntity | low-engine/scene/Scene.h:20 | appends a fresh, consistent, active entity with the next id and no components, named `name_id`; the name defaults to "Entity"; the arena is unchanged |
| Scenes.Scene.AppendCopyOf | low-engine/scene/SceneManager.h:30-35 | appends a copy of the source entity with the next id, and files the clones of its components under the new id |
| Scenes.Scene.AddComponent | low-engine/scene/Scene.h:22-25 | returns exactly what the scene's own arena creates, and the arena changes exactly as that creation says |
| Scenes.Scene.GetComponent | low-engine/scene/Scene.h:27-30 | returns the scene's own arena lookup |
| Scenes.AddComponentIsolated | low-engine/scene/Scene.h:22-35 | adding a component to one scene leaves another scene's arena unchanged, and the target then has that type exactly when creation succeeded or it already had one |
| SceneManagement.SceneManager.constructor | low-engine/scene/SceneManager.h:17 | the manager starts with no scenes |
| SceneManagement.SceneManager.CreateScene | low-engine/scene/SceneManager.h:21-28 | appends a new empty, inactive scene with the given name; the current index does not change |
| SceneManagement.SceneManager.CreateCopySceneFromCurrent | low-engine/scene/SceneManager.h:30-35 | with no scenes, returns the `MAX_SIZE` sentinel and changes nothing; otherwise appends a deep copy of the current scene, returns its index, and leaves the current index and the earlier scenes alone |
| SceneManagement.DeepCopy | low-engine/scene/SceneManager.h:30-35 | the copy has the suffixed name, the same flag, one entity per source entity with consecutive new ids, and the source arena cloned under those ids |
| SceneManagement.CopyNextEntity | low-engine/scene/SceneManager.h:30-35 | copying one more entity extends the copied prefix by one, drawing one id |
| SceneManagement.CopyLookup | low-engine/scene/SceneManager.h:30-35 | in a copy of a scene with at most 2^32 entities, each copy entity's typed lookup is the clone of its source entity's lookup. It exists exactly when the source's does, holds the same value (the sprite's texture id, sprite and layer), and is bound to the copy's arena |
| SceneManagement.SceneManager.SelectScene | low-engine/scene/SceneManager.h:37-42 | returns true exactly for a valid index, which becomes current; otherwise nothing changes |
| SceneManagement.SceneManager.SelectSceneByName | low-engine/scene/SceneManager.h:44-49 | returns true exactly when some scene has that name, and the first such scene becomes current; otherwise nothing changes |
| SceneManagement.SceneManager.SelectSceneByRef | low-engine/scene/SceneManager.h:51-56 | returns true exactly when the scene is one of the manager's, and it becomes current; otherwise nothing changes |
| SceneManagement.SceneManager.GetCurrentScene | low-engine/scene/SceneManager.h:58-62 | null exactly when there are no scenes, and otherwise the current scene |
| SceneManagement.SceneManager.DestroyCurrentScene | low-engine/scene/SceneManager.h:72-77 | removes the current scene and keeps the others in order; the scene below becomes current (index 0 stays 0) |
| SceneManagement.SceneManager.DestroyAll | low-engine/scene/SceneManager.h:79-82 | no scenes remain |
| AssetRegistry.NewSheet | low-engine/assets/Assets.cpp:58-62 | a new sheet has exactly the requested frame dimensions and counts, and no clips |
| AssetRegistry.TextureIdMissingIffOutOfRange | low-engine/assets/Assets.cpp:117-118 | for any table smaller than 2^63, the unsigned comparison rejects exactly the ids outside `0 <= id < size`, negative ids included |
| AssetRegistry.Assets.constructor | low-engine/assets/Assets.cpp:4-14 | the table holds exactly the default texture, at index 0, with no aliases and no sheets |
| AssetRegistry.Assets.LoadTexture | low-engine/assets/Assets.cpp:16-27 | on success, appends one texture and returns the old size cast to `int32_t`; on failure, returns -1 with the table unchanged; aliases and sheets are never touched |
| AssetRegistry.Assets.LoadTextureAs | low-engine/assets/Assets.cpp:29-35 | maps the alias to the returned index, overwriting any earlier mapping, exactly when the index is not -1 |
| AssetRegistry.Assets.LoadTextureWithAnimationSheet | low-engine/assets/Assets.cpp:37-43 | a failed load changes nothing. A successful load also gives the new index a sheet unless it already has one. When the cast index is -1 (a table of 2^32-1 textures) the sheets stay as they were |
| AssetRegistry.Assets.LoadTextureAsWithAnimationSheet | low-engine/assets/Assets.cpp:45-51 | a failed load changes nothing. A successful one also sets the alias and gives the new index a sheet unless it already has one. When the cast index is -1 the sheets and aliases stay as they were |
| AssetRegistry.Assets.AddAnimationSheet | low-engine/assets/Assets.cpp:53-66 | creates a sheet with exactly the given dimensions when the id has none; never overwrites an existing sheet |
| AssetRegistry.Assets.AddAnimationSheetByAlias | low-engine/assets/Assets.cpp:68-76 | fails exactly for an unknown alias, with nothing changed; otherwise acts as the by-id call on the aliased index |
| AssetRegistry.Assets.AddAnimationClip | low-engine/assets/Assets.cpp:78-85 | changes nothing when the id has no sheet; otherwise appends the clip to that sheet only |
| AssetRegistry.Assets.AddAnimationClipByAlias | low-engine/assets/Assets.cpp:87-95 | fails exactly for an unknown alias, with nothing changed. Otherwise the new sheet map is the by-id call's: only the aliased sheet changes, and only by the appended clip |
| AssetRegistry.Assets.GetAnimationSheet | low-engine/assets/Assets.cpp:97-103 | the id's sheet, or null exactly when it has none |
| AssetRegistry.Assets.GetAnimationSheetByAlias | low-engine/assets/Assets.cpp:105-111 | fails exactly for an unknown alias; otherwise the aliased index's sheet, or null |
| AssetRegistry.Assets.GetDefaultTexture | low-engine/assets/Assets.cpp:113-115 | returns entry 0 of a non-empty table |
| AssetRegistry.Assets.GetTexture | low-engine/assets/Assets.cpp:117-123 | succeeds exactly when the id converted to `size_t` is below the table size, so a negative id fails too, and returns that entry |
| AssetRegistry.Assets.GetTextureByAlias | low-engine/assets/Assets.cpp:125-131 | fails for an unknown alias; otherwise looks up the aliased index, which succeeds whenever every alias names a loaded texture |
| AssetRegistry.Assets.UnloadAll | low-engine/assets/Assets.cpp:133-136 | the textures and aliases are empty afterwards, so index 0 is gone; the sheets are kept |
| DevTools.InsertSpaces | low-editor/devtools/DevTools.cpp:430-439 | the result is the loop's output; it is the input lengthened by one per inner capital, empty exactly for empty input, starts with the input's first character, and gives back the input once the inserted spaces are deleted |
| DevTools.SpacedLength | low-editor/devtools/DevTools.cpp:430-439 | the output length is the input length plus the number of upper-case characters at positions 1 and later |
| DevTools.UnspaceSpaced | low-editor/devtools/DevTools.cpp:432-437 | deleting the inserted spaces recovers the input characters in order |
| DevTools.SpacedAt | low-editor/devtools/DevTools.cpp:433-436 | each input character appears at its output position. An upper-case one after position 0 has a space directly before it. Any other character follows the previous input character directly, and the first lands at position 0 |
| DevTools.FirstIndexOf | low-editor/devtools/DevTools.cpp:387-393 | returns the first index holding the name, or the length when none does |
| DevTools.CurrentItemIsFirstMatch | low-editor/devtools/DevTools.cpp:387-393 | the selected item is the first index whose name matches, or 0 when none matches |
| DevTools.SelectedClipIndexAsWritten | low-editor/devtools/DevTools.cpp:387-396 | faults exactly when there is no clip and the sheet has clip names; otherwise returns the first-match selection |
| DevTools.NullClipFaults | low-editor/devtools/DevTools.cpp:387-396 | one clip name and no clip: the search as written faults |
| DevTools.SelectedClipIndex | low-editor/devtools/DevTools.cpp:387-396 | with no clip the selection is 0; otherwise it is the first-match selection |

## Left out

- `Memory.h` (the arena) is not part of this model. The arena is abstract. Its behaviour is an
  assumption: creation checks each type's declared dependencies against the entity's current
  components and fails with nothing changed, and a typed lookup returns the first component of
  that type. Slot allocation,
  `Initialize` calls, `UpdateAll`/`DrawAll`, and registering the slot id on the entity are not
  modelled.
- `TransformComponent.h` is not part of this model. The transform is taken to have no
  dependencies. Its floating-point position, rotation and scale are not modelled.
- `Scene.cpp` and `SceneManager.cpp` are not part of this model. The scene and manager methods
  follow the header declarations and their doc comments.
- Scene entities: the entities a scene holds are an `entities` sequence, which the header does not
  show.
- The deep copy's behaviour is an assumption, because its body is not shown. It makes a new entity
  per source entity, re-keys the arena by the new ids, and clones every component into the new
  arena.
- `Scene::InitAsDefault`, `Update`, `Draw` and `Destroy`: their bodies are not part of this model.
  `SpriteComponent::Update` and `SetSprite` are not modelled either, for the same reason.
- The `const` overload of `GetCurrentScene` has no documented behaviour for an empty manager, so it
  is not modelled.
- SceneManagement.SceneManager.CreateScene: the null-on-error result is not modelled, because the
  only error is allocation failure, which the model does not have.
- SceneManagement.SceneManager.SelectScene: returns true for a valid index even when it was
  already current. "Current scene was changed" is read as "the index is now current".
- SceneManagement.SceneManager.SelectSceneByName: with several scenes of the same name, the first
  one is chosen.
- `Config.h` is not part of this model. `Config::MAX_SIZE` is taken to be the largest `size_t`.
- `Entity.h` is not part of this model. A new entity's name is taken as empty and its flag as
  inactive.
- Entities.Entity.GetComponent requires the type to have a non-empty list. The C++ call on a
  missing type inserts an empty list and then indexes it, which is undefined behaviour.
- AssetRegistry.Assets.GetDefaultTexture requires a non-empty table: after `UnloadAll`, indexing
  entry 0 is undefined behaviour.
- Animation clips: the frame duration is floating point and is not modelled. How
  `AnimationSheet::AddAnimationClip` stores a clip is not part of this model, so a clip is recorded
  as the request it received.
- The registry constructor throws when the default image cannot become a texture; this is not
  modelled.
- Actual image and texture loading, and the `_log` messages, are not modelled.
- The `GetInstance()` singleton is modelled as a single `Assets` object.
- Entities.IdCounter: the static `_nextId` is an explicit object passed to everything that builds
  entities. Concurrent construction is not modelled.
- Accessors return values, not pointers or references into their owner's storage. This covers
  `Scene::GetComponent`, `Memory::GetComponent`, `Assets::GetAnimationSheet`, `GetTexture`,
  `GetDefaultTexture` and `SpriteComponent::Draw`. Edits made through such a pointer, like those
  the editor's property panels make, cannot be expressed, and neither can aliasing between the
  returned object and the stored one.
- Sprites.CopyFrom: of the `IComponent(memory, other)` base-class copy, only the arena binding is
  modelled. `IComponent.h` is not part of this model, so any other base-class state is not carried.
- DevTools.InsertSpaces: the C++ works on the bytes of a `std::string` and tests them with
  `std::isupper` in the "C" locale. The model works on a sequence of characters and counts
  exactly 'A' to 'Z' as upper case. Multi-byte UTF-8 sequences and other locales are not
  modelled.
- The rest of `DevTools.cpp` (menus, toolbar, property panels, icons, rendering) is UI and foreign
  calls, so it is not modelled.

## Findings

| source | as written | input that shows it | evidently intended | confidence | as-written member | corrected member |
|---|---|---|---|---|---|---|
| low-editor/devtools/DevTools.cpp:387-396 | the clip-index loop reads `asc->Clip->Name` on every iteration, but the null check on `asc->Clip` only comes later, at line 396 | an animated sprite whose sheet has a clip named "Idle" and whose `Clip` is null: the first iteration dereferences null | search only when `Clip` is not null; otherwise leave the selection at 0 | not executed; medium (the later check shows the authors expect a null `Clip`) | DevTools.SelectedClipIndexAsWritten | DevTools.SelectedClipIndex |
