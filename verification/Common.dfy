/** Small definitions shared by the other modules. */
module Common {
  datatype Option<+T> = None | Some(value: T)

  ghost function Bit(b: bool): int {
    if b then 1 else 0
  }
}
