/**
 * Standard base64 encoding (section 4 of RFC 4648, with `=` padding and no
 * line breaks), the encoding `base64.b64encode` produces. The image
 * normaliser only relies on the alphabet of its output; the concrete
 * definition lets the model name bytes whose encoding holds a given word.
 */
module Base64 {
  type byte = b: int | 0 <= b < 256

  /** The 65 characters of the section 4 alphabet, padding included. */
  predicate InAlphabet(c: char) {
    ('A' <= c <= 'Z') || ('a' <= c <= 'z') || ('0' <= c <= '9') || c == '+' || c == '/' || c == '='
  }

  /** The character for a 6-bit value (Table 1 of RFC 4648). */
  function Sextet(k: int): (c: char)
    requires 0 <= k < 64
    ensures InAlphabet(c) && c != '='
  {
    if k < 26 then ('A' as int + k) as char
    else if k < 52 then ('a' as int + (k - 26)) as char
    else if k < 62 then ('0' as int + (k - 52)) as char
    else if k == 62 then '+'
    else '/'
  }

  /** Each group of three bytes becomes four characters; a final group of one
      or two bytes is padded with `=`. */
  function Encode(b: seq<byte>): (r: string)
    ensures |r| == 4 * ((|b| + 2) / 3)
    ensures forall i :: 0 <= i < |r| ==> InAlphabet(r[i])
  {
    if |b| == 0 then ""
    else if |b| == 1 then
      [Sextet(b[0] / 4), Sextet((b[0] % 4) * 16), '=', '=']
    else if |b| == 2 then
      [Sextet(b[0] / 4), Sextet((b[0] % 4) * 16 + b[1] / 16), Sextet((b[1] % 16) * 4), '=']
    else
      [Sextet(b[0] / 4), Sextet((b[0] % 4) * 16 + b[1] / 16),
       Sextet((b[1] % 16) * 4 + b[2] / 64), Sextet(b[2] % 64)] + Encode(b[3..])
  }
}
