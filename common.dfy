/** Values shared by every part of the model: bytes, the Option and Result
    wrappers, and the dynamically typed error value (`anyhow::Error`) that
    all fallible operations of the plugin return. */
module Common {

  newtype byte = x: int | 0 <= x < 256

  datatype Option<+T> = None | Some(value: T)

  /** `anyhow::Result<T>`: every fallible operation of the plugin fails with a `Failure`. */
  datatype Result<+T> = Ok(value: T) | Err(error: Failure)

  /** An `anyhow::Error`: whether the error it wraps is an `io::Error`, and
      its `Display` text as UTF-8 bytes. */
  datatype Failure = Failure(isIo: bool, text: seq<byte>)

  const NUL: byte := 0
  const SLASH: byte := 0x2F

  ghost predicate IsAscii(s: string) {
    forall i :: 0 <= i < |s| ==> s[i] as int < 128
  }

  /** The UTF-8 bytes of an ASCII string literal. */
  function Ascii(s: string): (r: seq<byte>)
    requires IsAscii(s)
    ensures |r| == |s|
    ensures forall i :: 0 <= i < |s| ==> r[i] as int == s[i] as int
  {
    seq(|s|, i requires 0 <= i < |s| => s[i] as int as byte)
  }

  /** `anyhow::anyhow!(s)`: an ad-hoc error that wraps no `io::Error`. */
  function Adhoc(s: string): (f: Failure)
    requires IsAscii(s)
    ensures !f.isIo && |f.text| == |s|
  {
    Failure(false, Ascii(s))
  }
}
