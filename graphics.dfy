/** The graphics values the core passes around without looking inside them. */
module Graphics {

  /** A texture held by the asset registry; only its identity matters to the model. */
  datatype Texture = Texture(handle: nat)

  /** A drawable sprite built over a texture; its geometry and colour are not modelled. */
  datatype Sprite = Sprite(texture: Texture)
}
