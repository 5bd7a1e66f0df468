/** Opaque HTTP values shared by the routing and group modules. */
module Http {

  type byte = x: int | 0 <= x < 256

  /** A response status; `code` is the numeric status code as text, as `RsStatus.code()` gives it. */
  datatype Status = Status(code: string)

  const NOT_FOUND: Status := Status("404")

  /** Headers: an ordered sequence of name/value pairs; duplicates are allowed. */
  type Headers = seq<(string, string)>

  /** A complete response: status line, headers and body bytes. */
  datatype Response = Response(status: Status, headers: Headers, body: seq<byte>)

  predicate IsAscii(s: string) {
    forall i :: 0 <= i < |s| ==> s[i] as int < 128
  }

  /** The UTF-8 encoding of an ASCII string: one byte per character, equal to its code point. */
  function Utf8Ascii(s: string): (b: seq<byte>)
    requires IsAscii(s)
  {
    seq(|s|, i requires 0 <= i < |s| => s[i] as int)
  }
}
