/** What several components share: optional values and the lexical checks on commits and versions. */
module Basics {

  datatype Option<T> = None | Some(value: T)

  /** Exactly `length` lower-case hexadecimal digits. */
  predicate LowerHex(value: string, length: nat)
  {
    |value| == length && forall i :: 0 <= i < |value| ==> '0' <= value[i] <= '9' || 'a' <= value[i] <= 'f'
  }

  /** A nonempty word of letters, digits and the four marks a version may have. */
  predicate ValidVersion(value: string)
  {
    value != "" && forall i :: 0 <= i < |value| ==>
      || 'a' <= value[i] <= 'z' || 'A' <= value[i] <= 'Z' || '0' <= value[i] <= '9'
      || value[i] == '.' || value[i] == '_' || value[i] == '+' || value[i] == '-'
  }
}
