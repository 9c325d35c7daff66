/** Small value types and helpers shared by the models. */
module Common {

  datatype Option<+T> = None | Some(value: T)

  function MinReal(x: real, y: real): real {
    if x <= y then x else y
  }

  function MaxReal(x: real, y: real): real {
    if x >= y then x else y
  }
}
