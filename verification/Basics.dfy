/** Small types shared by the models. */
module Basics {
  datatype Option<+T> = None | Some(value: T)

  /** A call either returns a value or raises one of the source's errors. */
  datatype Result<+T, +E> = Ok(value: T) | Err(error: E)

  /** Python's str.isspace, which str.strip trims. */
  predicate IsSpace(c: char) {
    0x09 <= c as int <= 0x0D || 0x1C <= c as int <= 0x20 || c as int == 0x85 || c as int == 0xA0
    || c as int == 0x1680 || 0x2000 <= c as int <= 0x200A || c as int == 0x2028 || c as int == 0x2029
    || c as int == 0x202F || c as int == 0x205F || c as int == 0x3000
  }

  /** Nothing is left after str.strip. */
  predicate Blank(s: string) {
    forall i :: 0 <= i < |s| ==> IsSpace(s[i])
  }

  /** s[:n] */
  function Clip(s: string, n: nat): string {
    if |s| <= n then s else s[..n]
  }

  /** A lower-case hexadecimal digit. */
  predicate IsHex(c: char) {
    '0' <= c <= '9' || 'a' <= c <= 'f'
  }

  /** SHA-256 over text, as a function to its hexadecimal digest. */
  type Digest = string -> string

  predicate IsHex64(s: string) {
    |s| == 64 && forall i :: 0 <= i < |s| ==> IsHex(s[i])
  }

  /** hexdigest writes 64 lower-case hexadecimal digits. */
  ghost predicate Hexadecimal(sha: Digest) {
    forall t :: IsHex64(sha(t))
  }

  /** str.lower on ASCII letters. */
  function Lower(s: string): string {
    seq(|s|, i requires 0 <= i < |s| => if 'A' <= s[i] <= 'Z' then 'a' + (s[i] - 'A') else s[i])
  }

  /** int(s) of decimal digits. */
  function DigitsValue(s: string): nat
    requires forall i :: 0 <= i < |s| ==> '0' <= s[i] <= '9'
  {
    if s == "" then 0 else 10 * DigitsValue(s[..|s| - 1]) + (s[|s| - 1] as int - '0' as int)
  }

  lemma SubsetSize<T>(a: set<T>, b: set<T>)
    requires a <= b
    ensures |a| <= |b|
  {
    assert b == a + (b - a);
  }
}
