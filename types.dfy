/** Small value types shared by the whole model. */
module Types {

  /** A value that may be absent: the model's stand-in for a call that
      throws or a library routine that rejects its input. */
  datatype Option<+T> = None | Some(value: T)

  /** C++ `int64_t`: the Avro `long` timestamp and nlohmann's integer number. */
  newtype int64 = x: int | -0x8000_0000_0000_0000 <= x < 0x8000_0000_0000_0000

  /** C++ `uint16_t`: the listening port field. */
  newtype uint16 = x: int | 0 <= x < 0x1_0000

  /** One octet of a Kafka record payload. */
  newtype byte = x: int | 0 <= x < 0x100
}
