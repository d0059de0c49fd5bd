/**
 * The descriptive enumerations of a person. Only the members the domain layer
 * names are named here; any other member is carried by its numeric value.
 */
module Enums {
  import opened Primitives

  /**
   * `GenderValue(c)` stands for any other member by its number. The number of
   * `NotSpecified` is not known here, so a `GenderValue` may carry it too; no
   * operation of the model compares or converts these numbers, so nothing relies
   * on the two spellings being told apart.
   */
  datatype Gender = NotSpecified | GenderValue(code: int32)

  /** As for `Gender`: a `MaritalStatusValue` may carry the number of `None`, and nothing relies on it. */
  datatype MaritalStatus = None | MaritalStatusValue(code: int32)
}
