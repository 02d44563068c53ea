/** The column type classes, as a tag. Only the subclass tests the comparator
    and the MySQL platform make are modelled; value conversion is not. */
module Types {

  datatype TypeTag =
    | ArrayType
    | BigIntType
    | BinaryType
    | BlobType
    | BooleanType
    | DateTimeType
    | DateTimeTzType
    | DateType
    | DecimalType
    | EnumType
    | FloatType
    | GuidType
    | IntegerType
    | JsonArrayType
    | ObjectType
    | SetType
    | SimpleArrayType
    | SmallIntType
    | StringType
    | TextType
    | TimeType
    | CustomType(name: string)

  /** `instanceof StringType`: GuidType extends StringType. */
  predicate IsString(t: TypeTag) {
    t == StringType || t == GuidType
  }

  /** `instanceof GuidType` */
  predicate IsGuid(t: TypeTag) {
    t == GuidType
  }

  /** `instanceof TextType || instanceof BlobType` */
  predicate IsTextOrBlob(t: TypeTag) {
    t == TextType || t == BlobType
  }
}
