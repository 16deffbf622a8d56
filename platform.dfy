/** Values the app takes from the platform: dates, bytes, images and thrown errors. */
module Platform {

  /** A Foundation `Date`: seconds since the reference date 2001-01-01T00:00:00Z. */
  type Instant = real

  type Byte = b: int | 0 <= b < 256

  type Bytes = seq<Byte>

  /** A decoded `UIImage`; only its identity matters to the logic modelled here. */
  datatype Image = Image(handle: nat)

  /** A thrown error: an `NSError` the app builds itself (domain, code and the
      `NSLocalizedDescriptionKey` text), or an error thrown by a library the
      model does not contain, known only by its description. */
  datatype Failure =
    | Coded(domain: string, code: int, message: string)
    | External(message: string)
  {
    /** `error.localizedDescription` */
    function Description(): string {
      match this
      case Coded(_, _, m) => m
      case External(m) => m
    }
  }
}
