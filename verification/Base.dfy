/** Types shared by every module, and the parts of the system kept abstract. */
module Base {

  datatype Option<+T> = None | Some(value: T)

  datatype Result<+T, +E> = Ok(value: T) | Err(error: E)

  type Byte(==, 0, !new)
  type Bytes = seq<Byte>

  // Identifiers, names and hashes are opaque: only equality is ever used.

  /** A SHA-256 value. */
  type Hash(==, 0, !new)

  type UserId(==, 0, !new)
  type DeviceId(==, 0, !new)
  type FileId(==, 0, !new)
  type OpId(==, 0, !new)

  type Endpoint(==, 0, !new)
  type Mime(==, 0, !new)

  /** A UTF-8 file or folder name. */
  type Name(==, 0, !new)

  /** A monotone clock; the unit is fixed by each module that measures durations. */
  type Time = int

  /** Where durations matter, the clock counts nanoseconds. */
  const SECOND := 1_000_000_000

  function Power2(n: nat): nat {
    if n == 0 then 1 else 2 * Power2(n - 1)
  }

  // Nothing below is given a value: every proof holds for any hash function and
  // any name normalisation.

  /** SHA-256 of a byte string. */
  const Sha: Bytes -> Hash

  /** Length in bytes. */
  const ByteLength: Name -> nat

  /** strings.TrimSpace. */
  const TrimSpace: Name -> Name

  /** The name contract both sides share: the NFC form, or nothing for a refused name. */
  const NormalizeName: Name -> Option<Name>
}
