/** The conversions the C entry points apply to the strings they receive and
    return: `CStr::to_str` (UTF-8 validation, with the error it reports) and
    `CStr::from_bytes_with_nul`. */
module CStrings {
  import opened Common

  /** How many bytes the character a lead byte starts spans in well-formed
      UTF-8 (0: the byte cannot start a character). */
  function Width(lead: byte): nat {
    if lead < 0x80 then 1
    else if 0xC2 <= lead <= 0xDF then 2
    else if 0xE0 <= lead <= 0xEF then 3
    else if 0xF0 <= lead <= 0xF4 then 4
    else 0
  }

  predicate Continuation(b: byte) {
    0x80 <= b <= 0xBF
  }

  /** The narrower ranges the second byte obeys after the leads E0, ED, F0
      and F4, which exclude overlong forms, surrogates and code points past
      U+10FFFF. */
  predicate SecondOk(lead: byte, b: byte) {
    && (if lead == 0xE0 then 0xA0 else if lead == 0xF0 then 0x90 else 0x80) <= b
    && b <= (if lead == 0xED then 0x9F else if lead == 0xF4 then 0x8F else 0xBF)
  }

  /** How many bytes at the start of `s` the decoder consumes before it
      either completes a character or stops at a byte that cannot continue
      it (at least one, the lead). */
  function Run(s: seq<byte>): (k: nat)
    requires s != []
    ensures 1 <= k <= |s|
    ensures k <= 4 && (Width(s[0]) >= 1 ==> k <= Width(s[0]))
  {
    if Width(s[0]) <= 1 then 1
    else if |s| < 2 || !SecondOk(s[0], s[1]) then 1
    else if Width(s[0]) == 2 then 2
    else if |s| < 3 || !Continuation(s[2]) then 2
    else if Width(s[0]) == 3 then 3
    else if |s| < 4 || !Continuation(s[3]) then 3
    else 4
  }

  /** Whether `s` starts with a complete, well-formed character. */
  predicate CharAt(s: seq<byte>) {
    s != [] && Width(s[0]) > 0 && Run(s) == Width(s[0])
  }

  /** `Utf8Error::valid_up_to`: the length of the longest well-formed prefix
      the decoder reads character by character. */
  function ValidUpTo(s: seq<byte>): (n: nat)
    ensures n <= |s|
    decreases |s|
  {
    if CharAt(s) then Run(s) + ValidUpTo(s[Run(s)..]) else 0
  }

  predicate ValidUtf8(s: seq<byte>) {
    ValidUpTo(s) == |s|
  }

  /** Where decoding stops short, the remaining bytes do not start a
      complete character. */
  lemma {:induction false} StopsAtIllFormed(s: seq<byte>)
    requires !ValidUtf8(s)
    ensures ValidUpTo(s) < |s|
    ensures !CharAt(s[ValidUpTo(s)..])
    decreases |s|
  {
    if CharAt(s) {
      var k := Run(s);
      StopsAtIllFormed(s[k..]);
      assert s[k..][ValidUpTo(s[k..])..] == s[ValidUpTo(s)..];
    }
  }

  /** Bytes below 0x80 (ASCII, such as a hexadecimal key handle) are always
      well-formed UTF-8. */
  lemma {:induction false} AsciiIsValidUtf8(s: seq<byte>)
    requires forall i :: 0 <= i < |s| ==> s[i] < 0x80
    ensures ValidUtf8(s)
    decreases |s|
  {
    if s != [] {
      assert CharAt(s) && Run(s) == 1;
      AsciiIsValidUtf8(s[1..]);
    }
  }

  /** The decimal digits `{}` formats a number with: no leading zero
      except for zero itself. */
  function Decimal(n: nat): (r: seq<byte>)
    ensures 1 <= |r|
    ensures forall i :: 0 <= i < |r| ==> 0x30 <= r[i] <= 0x39
    ensures r[0] == 0x30 ==> n == 0
  {
    if n < 10 then [(0x30 + n) as byte] else Decimal(n / 10) + [(0x30 + n % 10) as byte]
  }

  /** The number a string of decimal digits denotes. */
  function DigitsValue(digits: seq<byte>): nat
    requires forall i :: 0 <= i < |digits| ==> 0x30 <= digits[i] <= 0x39
  {
    if digits == [] then 0
    else 10 * DigitsValue(digits[..|digits| - 1]) + (digits[|digits| - 1] as int - 0x30)
  }

  /** `Decimal` writes `n` itself: reading its digits back gives `n`. */
  lemma {:induction false} DecimalValue(n: nat)
    ensures DigitsValue(Decimal(n)) == n
  {
    if n >= 10 {
      var d := Decimal(n);
      assert d[..|d| - 1] == Decimal(n / 10);
      DecimalValue(n / 10);
    }
  }

  /** `Utf8Error::error_len`: `None` when the input ends inside a character
      that could still be completed, otherwise how many bytes form the
      invalid sequence. */
  function ErrorLen(s: seq<byte>): (r: Option<nat>)
    requires !ValidUtf8(s)
    ensures r.Some? ==> 1 <= r.value <= 3
  {
    StopsAtIllFormed(s);
    var rest := s[ValidUpTo(s)..];
    if Width(rest[0]) == 0 then Some(1)
    else if Run(rest) == |rest| then None
    else Some(Run(rest))
  }

  /** The `Utf8Error` `to_str` reports, as an error value: it does not wrap
      an `io::Error`, and its text is `Utf8Error`'s `Display`. */
  function Utf8Failure(s: seq<byte>): (f: Failure)
    requires !ValidUtf8(s)
    ensures !f.isIo
  {
    var at := Decimal(ValidUpTo(s));
    match ErrorLen(s)
    case Some(n) =>
      Failure(false, Ascii("invalid utf-8 sequence of ") + Decimal(n) + Ascii(" bytes from index ") + at)
    case None =>
      Failure(false, Ascii("incomplete utf-8 byte sequence from index ") + at)
  }

  /** `CStr::to_str`: the bytes as a `&str` when they are well-formed
      UTF-8, else the `Utf8Error`. */
  function ToStr(s: seq<byte>): (r: Result<seq<byte>>)
    ensures r.Ok? <==> ValidUtf8(s)
    ensures r.Ok? ==> r.value == s
    ensures r.Err? ==> !r.error.isIo
  {
    if ValidUtf8(s) then Ok(s) else Err(Utf8Failure(s))
  }

  /** `CStr::from_bytes_with_nul`: accepted exactly when the one NUL byte is
      the last one; the string is what precedes it. */
  function FromBytesWithNul(b: seq<byte>): (r: Option<seq<byte>>)
    ensures r.Some? <==> |b| > 0 && b[|b| - 1] == NUL && NUL !in b[..|b| - 1]
    ensures r.Some? ==> r.value + [NUL] == b
  {
    if |b| > 0 && b[|b| - 1] == NUL && NUL !in b[..|b| - 1] then Some(b[..|b| - 1]) else None
  }

  /** A NUL-free string with its terminator appended is read back whole. */
  lemma FromBytesWithNulOfTerminated(s: seq<byte>)
    requires NUL !in s
    ensures FromBytesWithNul(s + [NUL]) == Some(s)
  {
  }
}
