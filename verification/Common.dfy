/** What every part of the model shares. */
module Common {
  datatype Option<+T> = None | Some(value: T)

  const U64_MAX: nat := 0xFFFF_FFFF_FFFF_FFFF

  function Min(a: nat, b: nat): nat {
    if a <= b then a else b
  }

  function Monus(a: nat, b: nat): nat {
    if a >= b then a - b else 0
  }
}
