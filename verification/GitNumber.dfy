/** gitstate/object.go: what reading a variable-length number gives. */
module GitNumber {
  /** The number and the position after it, or the bytes ran out. */
  datatype Parsed = Val(v: nat, next: nat) | Short
}
