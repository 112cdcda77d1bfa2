/** Bytes of a file or a message. */
module Binary {
  type Byte = x: nat | x < 256

  type Bytes = seq<Byte>
}
