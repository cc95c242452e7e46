/** The component types that appear in the modelled files, standing for their `std::type_index`. */
module ComponentTypes {

  datatype ComponentType = TransformType | SpriteType
}
