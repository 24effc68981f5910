/** Machine types and the small failure-carrying datatypes shared by every module. */
module Common {

  /** One octet on the wire. */
  newtype byte = b: int | 0 <= b < 0x100

  /** Go's uint32: exchange ids and payload lengths are carried in it. */
  newtype uint32 = x: int | 0 <= x < 0x1_0000_0000

  const Uint32Modulus: int := 0x1_0000_0000

  datatype Option<+T> = None | Some(value: T)

  datatype Result<+T, +E> = Ok(value: T) | Err(error: E)

  /** Go's conversion uint32(n) of a non-negative int: keeps the low 32 bits. */
  function ToUint32(n: nat): (r: uint32)
    ensures r as int == n % Uint32Modulus
    ensures n < Uint32Modulus ==> r as int == n
  {
    (n % Uint32Modulus) as uint32
  }
}
