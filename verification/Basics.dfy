/** Result types and byte strings shared by the models. */
module Basics {

  datatype Option<+T> = None | Some(value: T)

  /** The sources' error values carry only diagnostic text, so an error is a bare constructor here. */
  datatype Result<+T> = Ok(value: T) | Err

  newtype byte = x: int | 0 <= x < 256

  type Bytes = seq<byte>

  /**
   * A SHA-256 digest. The hash is modelled as a free constructor: equal digests come from equal
   * inputs, and nothing else is known about it.
   */
  datatype Digest<T> = Sha256(preimage: T)

  predicate IsDigit(c: char) { '0' <= c <= '9' }

  /** Decimal text, as the sources' formatters print a natural number. */
  function Decimal(n: nat): (text: string)
    ensures text != "" && forall c | c in text :: IsDigit(c)
  {
    var digit := ('0' as int + n % 10) as char;
    if n < 10 then [digit] else Decimal(n / 10) + [digit]
  }
}
