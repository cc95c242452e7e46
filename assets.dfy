/**
 * The asset registry: the texture table (the default texture at index 0), texture aliases, and
 * one animation sheet per texture id. Reading a texture file is an input to the model: a call
 * that loads one is given the texture it produced, or `None` when loading threw.
 */
module AssetRegistry {
  import opened Common
  import opened Graphics

  /** A clip the sheet was asked to hold; how the sheet stores it is not modelled. */
  datatype ClipRequest = ClipRequest(name: string, firstFrameIndex: uint32, frameCount: uint32)

  datatype AnimationSheet = AnimationSheet(
    frameWidth: uint32, frameHeight: uint32, frameCountX: uint32, frameCountY: uint32,
    clips: seq<ClipRequest>)

  /** A failure the registry reports by throwing. */
  datatype Error = UnknownAlias(alias: string) | NoSuchTexture(textureId: int32)

  /** The sheet `_animationSheets[textureId]` creates and `AddAnimationSheet` then fills in. */
  function NewSheet(frameWidth: uint32, frameHeight: uint32, frameCountX: uint32, frameCountY: uint32): (r: AnimationSheet)
    ensures r.frameWidth == frameWidth && r.frameHeight == frameHeight
    ensures r.frameCountX == frameCountX && r.frameCountY == frameCountY
    ensures r.clips == []
  {
    AnimationSheet(frameWidth, frameHeight, frameCountX, frameCountY, [])
  }

  /** `GetTexture(textureId)`'s guard: `size() <= textureId` after `textureId` is converted to `size_t`. */
  predicate TextureIdMissing(count: nat, textureId: int32)
  {
    count <= SizeOf(textureId)
  }

  /**
   * The guard rejects exactly the ids outside the table: a negative id becomes a huge unsigned
   * value and is rejected too, for any table smaller than 2^63 entries.
   */
  lemma TextureIdMissingIffOutOfRange(count: nat, textureId: int32)
    ensures count < 0x8000_0000_0000_0000 ==> (TextureIdMissing(count, textureId) <==> !(0 <= textureId < count))
  {
  }

  class Assets {
    var textures: seq<Texture>
    var aliases: map<string, int32>
    var sheets: map<int32, AnimationSheet>

    /** Every alias names a texture in the table. */
    ghost predicate AliasesResolve()
      reads this
    {
      forall a :: a in aliases ==> 0 <= aliases[a] < |textures|
    }

    /** `Assets()`: the table holds only the default texture. Failure to build it is not modelled. */
    constructor (defaultTexture: Texture)
      ensures textures == [defaultTexture] && aliases == map[] && sheets == map[]
      ensures AliasesResolve()
    {
      textures := [defaultTexture];
      aliases := map[];
      sheets := map[];
    }

    /**
     * `LoadTexture(path)`: on success appends the texture and returns its index, the old size cast
     * to `int32_t`; on failure returns -1 and leaves the table as it was.
     */
    method LoadTexture(path: string, loaded: Option<Texture>) returns (index: int32)
      modifies this
      ensures loaded.None? ==> index == -1 && textures == old(textures)
      ensures loaded.Some? ==> textures == old(textures) + [loaded.value] && index == Int32Of(|old(textures)|)
      ensures loaded.Some? && |old(textures)| < 0x8000_0000 ==> index == |old(textures)| && textures[index] == loaded.value
      ensures aliases == old(aliases) && sheets == old(sheets)
      ensures old(AliasesResolve()) ==> AliasesResolve()
    {
      if loaded.None? {
        return -1;
      }
      textures := textures + [loaded.value];
      index := Int32Of(|textures| - 1);
    }

    /** `LoadTexture(path, alias)`: as above, and a successful index is recorded under `alias`. */
    method LoadTextureAs(path: string, alias: string, loaded: Option<Texture>) returns (index: int32)
      modifies this
      ensures loaded.None? ==> index == -1 && textures == old(textures)
      ensures loaded.Some? ==> textures == old(textures) + [loaded.value] && index == Int32Of(|old(textures)|)
      ensures aliases == if index != -1 then old(aliases)[alias := index] else old(aliases)
      ensures sheets == old(sheets)
      ensures old(AliasesResolve()) && |old(textures)| < 0x8000_0000 ==> AliasesResolve()
    {
      index := LoadTexture(path, loaded);
      if index != -1 {
        aliases := aliases[alias := index];
      }
    }

    /** `LoadTextureWithAnimationSheet(path, ...)`: a load, then a sheet for the new index. */
    method LoadTextureWithAnimationSheet(path: string, loaded: Option<Texture>, frameWidth: uint32,
                                         frameHeight: uint32, frameCountX: uint32, frameCountY: uint32)
      modifies this
      ensures loaded.None? ==> textures == old(textures) && sheets == old(sheets)
      ensures loaded.Some? ==> textures == old(textures) + [loaded.value]
      ensures var index := Int32Of(|old(textures)|);
        loaded.Some? && index != -1 ==>
          sheets == if index in old(sheets) then old(sheets)
                    else old(sheets)[index := NewSheet(frameWidth, frameHeight, frameCountX, frameCountY)]
      ensures loaded.Some? && Int32Of(|old(textures)|) == -1 ==> sheets == old(sheets)
      ensures aliases == old(aliases)
    {
      var textureId := LoadTexture(path, loaded);
      if textureId != -1 {
        AddAnimationSheet(textureId, frameWidth, frameHeight, frameCountX, frameCountY);
      }
    }

    /** `LoadTextureWithAnimationSheet(path, alias, ...)`: an aliased load, then a sheet for the new index. */
    method LoadTextureAsWithAnimationSheet(path: string, alias: string, loaded: Option<Texture>, frameWidth: uint32,
                                           frameHeight: uint32, frameCountX: uint32, frameCountY: uint32)
      modifies this
      ensures loaded.None? ==> textures == old(textures) && sheets == old(sheets) && aliases == old(aliases)
      ensures loaded.Some? ==> textures == old(textures) + [loaded.value]
      ensures var index := Int32Of(|old(textures)|);
        loaded.Some? && index != -1 ==>
          && aliases == old(aliases)[alias := index]
          && sheets == if index in old(sheets) then old(sheets)
                       else old(sheets)[index := NewSheet(frameWidth, frameHeight, frameCountX, frameCountY)]
      ensures loaded.Some? && Int32Of(|old(textures)|) == -1 ==> sheets == old(sheets) && aliases == old(aliases)
    {
      var textureId := LoadTextureAs(path, alias, loaded);
      if textureId != -1 {
        AddAnimationSheet(textureId, frameWidth, frameHeight, frameCountX, frameCountY);
      }
    }

    /** `AddAnimationSheet(textureId, ...)`: creates the sheet when the id has none; never overwrites one. */
    method AddAnimationSheet(textureId: int32, frameWidth: uint32, frameHeight: uint32,
                             frameCountX: uint32, frameCountY: uint32)
      modifies this
      ensures sheets == if textureId in old(sheets) then old(sheets)
                        else old(sheets)[textureId := NewSheet(frameWidth, frameHeight, frameCountX, frameCountY)]
      ensures textures == old(textures) && aliases == old(aliases)
    {
      if textureId !in sheets {
        sheets := sheets[textureId := NewSheet(frameWidth, frameHeight, frameCountX, frameCountY)];
      }
    }

    /** `AddAnimationSheet(alias, ...)`: throws for an unknown alias before changing anything. */
    method AddAnimationSheetByAlias(alias: string, frameWidth: uint32, frameHeight: uint32,
                                    frameCountX: uint32, frameCountY: uint32) returns (r: Outcome<Error>)
      modifies this
      ensures r.Fail? <==> alias !in old(aliases)
      ensures r.Fail? ==> r.error == UnknownAlias(alias) && sheets == old(sheets)
      ensures r.Pass? ==> var id := old(aliases)[alias];
        sheets == if id in old(sheets) then old(sheets)
                  else old(sheets)[id := NewSheet(frameWidth, frameHeight, frameCountX, frameCountY)]
      ensures textures == old(textures) && aliases == old(aliases)
    {
      if alias !in aliases {
        return Fail(UnknownAlias(alias));
      }
      AddAnimationSheet(aliases[alias], frameWidth, frameHeight, frameCountX, frameCountY);
      r := Pass;
    }

    /**
     * `AddAnimationClip(textureId, ...)`: hands the clip to the texture's sheet; a texture with no
     * sheet changes nothing. The frame duration is floating point and is not modelled.
     */
    method AddAnimationClip(textureId: int32, name: string, firstFrameIndex: uint32, frameCount: uint32)
      modifies this
      ensures textureId !in old(sheets) ==> sheets == old(sheets)
      ensures textureId in old(sheets) ==>
        var sheet := old(sheets)[textureId];
        sheets == old(sheets)[textureId := sheet.(clips := sheet.clips + [ClipRequest(name, firstFrameIndex, frameCount)])]
      ensures textures == old(textures) && aliases == old(aliases)
    {
      if textureId !in sheets {
        return;
      }
      var sheet := sheets[textureId];
      sheets := sheets[textureId := sheet.(clips := sheet.clips + [ClipRequest(name, firstFrameIndex, frameCount)])];
    }

    /** `AddAnimationClip(alias, ...)`: throws for an unknown alias before changing anything. */
    method AddAnimationClipByAlias(alias: string, name: string, firstFrameIndex: uint32, frameCount: uint32)
        returns (r: Outcome<Error>)
      modifies this
      ensures r.Fail? <==> alias !in old(aliases)
      ensures r.Fail? ==> r.error == UnknownAlias(alias) && sheets == old(sheets)
      ensures r.Pass? ==> var id := old(aliases)[alias];
        sheets == if id in old(sheets)
                  then old(sheets)[id := old(sheets)[id].(clips := old(sheets)[id].clips + [ClipRequest(name, firstFrameIndex, frameCount)])]
                  else old(sheets)
      ensures textures == old(textures) && aliases == old(aliases)
    {
      if alias !in aliases {
        return Fail(UnknownAlias(alias));
      }
      AddAnimationClip(aliases[alias], name, firstFrameIndex, frameCount);
      r := Pass;
    }

    /** `GetAnimationSheet(textureId)`: the texture's sheet, or null. */
    method GetAnimationSheet(textureId: int32) returns (r: Option<AnimationSheet>)
      ensures r.Some? <==> textureId in sheets
      ensures r.Some? ==> r.value == sheets[textureId]
    {
      if textureId !in sheets {
        return None;
      }
      r := Some(sheets[textureId]);
    }

    /** `GetAnimationSheet(alias)`: throws for an unknown alias; otherwise the aliased texture's sheet, or null. */
    method GetAnimationSheetByAlias(alias: string) returns (r: Result<Option<AnimationSheet>, Error>)
      ensures r.Failure? <==> alias !in aliases
      ensures r.Failure? ==> r.error == UnknownAlias(alias)
      ensures r.Success? ==> (r.value.Some? <==> aliases[alias] in sheets)
      ensures r.Success? && r.value.Some? ==> r.value.value == sheets[aliases[alias]]
    {
      if alias !in aliases {
        return Failure(UnknownAlias(alias));
      }
      var sheet := GetAnimationSheet(aliases[alias]);
      r := Success(sheet);
    }

    /** `GetDefaultTexture()`: entry 0, which exists until `UnloadAll` (indexing an empty table is undefined). */
    method GetDefaultTexture() returns (t: Texture)
      requires textures != []
      ensures t == textures[0]
    {
      t := textures[0];
    }

    /**
     * `GetTexture(textureId)`: the id, converted to `size_t` as the comparison and the subscript
     * both do, must be below the table size or the call throws. For any table smaller than 2^63
     * entries that is exactly the ids `0 <= textureId < size()`.
     */
    method GetTexture(textureId: int32) returns (r: Result<Texture, Error>)
      ensures r.Success? <==> !TextureIdMissing(|textures|, textureId)
      ensures r.Success? ==> r.value == textures[SizeOf(textureId)]
      ensures r.Failure? ==> r.error == NoSuchTexture(textureId)
      ensures |textures| < 0x8000_0000_0000_0000 ==>
        && (r.Success? <==> 0 <= textureId < |textures|)
        && (r.Success? ==> r.value == textures[textureId])
    {
      TextureIdMissingIffOutOfRange(|textures|, textureId);
      if TextureIdMissing(|textures|, textureId) {
        return Failure(NoSuchTexture(textureId));
      }
      r := Success(textures[SizeOf(textureId)]);
    }

    /** `GetTexture(alias)`: throws for an unknown alias; otherwise the lookup by the aliased index. */
    method GetTextureByAlias(alias: string) returns (r: Result<Texture, Error>)
      ensures alias !in aliases ==> r == Failure(UnknownAlias(alias))
      ensures alias in aliases ==>
        && (r.Success? <==> !TextureIdMissing(|textures|, aliases[alias]))
        && (r.Success? ==> r.value == textures[SizeOf(aliases[alias])])
      ensures alias in aliases && AliasesResolve() ==> r.Success? && r.value == textures[aliases[alias]]
    {
      if alias !in aliases {
        return Failure(UnknownAlias(alias));
      }
      r := GetTexture(aliases[alias]);
    }

    /** `UnloadAll()`: no textures and no aliases remain; the animation sheets stay. */
    method UnloadAll()
      modifies this
      ensures textures == [] && aliases == map[] && sheets == old(sheets)
      ensures AliasesResolve()
    {
      textures := [];
      aliases := map[];
    }
  }
}
