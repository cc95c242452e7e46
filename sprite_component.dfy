/**
 * SpriteComponent: a texture id, the sprite it draws and its layer, plus the non-owning
 * back-reference to the arena that holds it. The component is a value; the back-reference
 * is the arena object itself, so "bound to another arena" is a difference in `memory` alone.
 */
module Sprites {
  import opened Common
  import opened Graphics
  import opened ComponentTypes

  datatype SpriteComponent = SpriteComponent(memory: object?, textureId: uint32, sprite: Sprite, layer: int32)

  /** Everything the component owns, that is, all of it but the arena it is bound to. */
  predicate SameValue(a: SpriteComponent, b: SpriteComponent)
  {
    a.textureId == b.textureId && a.sprite == b.sprite && a.layer == b.layer
  }

  /** `SpriteComponent(memory)`: texture 0, layer 0, a sprite over the registry's default texture. */
  function Default(memory: object?, defaultTexture: Texture): (r: SpriteComponent)
    ensures r.memory == memory
    ensures r.textureId == 0 && r.layer == 0
    ensures r.sprite.texture == defaultTexture
  {
    SpriteComponent(memory, 0, Sprite(defaultTexture), 0)
  }

  /** `SpriteComponent(memory, other)`: a copy of `other`'s fields bound to `memory`. */
  function CopyFrom(memory: object?, other: SpriteComponent): (r: SpriteComponent)
    ensures r.memory == memory
    ensures SameValue(r, other)
  {
    other.(memory := memory)
  }

  /** `CloneInto`: placement-new of a copy bound to `newMemory` into the caller's storage. */
  method CloneInto(self: SpriteComponent, newMemory: object?, rawStorage: Storage<SpriteComponent>)
    modifies rawStorage
    ensures rawStorage.content == Some(CopyFrom(newMemory, self))
  {
    rawStorage.content := Some(CopyFrom(newMemory, self));
  }

  /** The types that must already be attached to the entity before a sprite can be. */
  function Dependencies(): (r: seq<ComponentType>)
    ensures |r| == 1 && r[0] == TransformType
  {
    [TransformType]
  }

  /** `Initialize()`: the component after it is the component before it. */
  function Initialize(self: SpriteComponent): (r: SpriteComponent)
    ensures r == self
  {
    self
  }

  /** `Draw()`: the component's own sprite. */
  function Draw(self: SpriteComponent): (r: Sprite)
    ensures r == self.sprite
  {
    self.sprite
  }

  /** A clone draws what its source draws and differs from it only in the arena it is bound to. */
  lemma CloneDrawsAsSource(self: SpriteComponent, newMemory: object?)
    ensures Draw(CopyFrom(newMemory, self)) == Draw(self)
    ensures CopyFrom(newMemory, self) == self <==> newMemory == self.memory
  {
  }

  /** Copying a copy is copying the original: cloning a cloned scene again loses nothing. */
  lemma CopyOfCopy(self: SpriteComponent, first: object?, second: object?)
    ensures CopyFrom(second, CopyFrom(first, self)) == CopyFrom(second, self)
    ensures CopyFrom(self.memory, self) == self
  {
  }
}
