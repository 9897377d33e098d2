/** Datatypes and integer operations shared by the other modules. */
module Common {

  datatype Option<+T> = None | Some(value: T)

  datatype Result<+T, +E> = Ok(value: T) | Err(error: E)

  /** Three-way comparison result. */
  datatype Ordering = Less | Equal | Greater {
    function Reverse(): Ordering {
      match this
      case Less => Greater
      case Equal => Equal
      case Greater => Less
    }
  }

  function CompareInt(x: int, y: int): Ordering {
    if x < y then Less else if x == y then Equal else Greater
  }

  function Magnitude(x: int): (a: nat)
    ensures a == x || a == -x
  {
    if x < 0 then -x else x
  }

  /** Division and remainder truncating toward zero. */
  function TruncDiv(n: int, d: int): int
    requires d != 0
  {
    if (n < 0) == (d < 0) then Magnitude(n) / Magnitude(d) else -(Magnitude(n) / Magnitude(d))
  }

  function TruncMod(n: int, d: int): int
    requires d != 0
  {
    if n < 0 then -(Magnitude(n) % Magnitude(d)) else Magnitude(n) % Magnitude(d)
  }
}
