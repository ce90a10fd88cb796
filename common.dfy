/** Shared vocabulary of the model: optional values, C character classes
    (for bytes in the ASCII range, as `<ctype.h>` classifies them in the "C"
    locale), ASCII case folding and the fixed-width integer limits the
    firmware uses. */
module Common {

  /** A value that may be absent: a NULL argument, a missing JSON key or an
      `undefined` property. */
  datatype Option<T> = None | Some(value: T)

  /** The `esp_err_t` codes the modelled functions return. `ErrStorage`
      stands for any failure reported by the flash (NVS/file) layer. */
  datatype EspErr =
    | EspOk | ErrInvalidArg | ErrNoMem | ErrNotFound | ErrNotSupported
    | ErrInvalidState | ErrInvalidSize | ErrFail | ErrStorage

  /** A value built by a function that returns `ESP_OK` and fills an output
      parameter, or the error code it returned instead. */
  datatype Outcome<T> = Ok(value: T) | Fail(err: EspErr)

  /** An octet of a packet, a file header or a flash blob. */
  newtype byte = x: int | 0 <= x < 256

  const UINT8_MAX: nat := 0xFF
  const UINT16_MAX: nat := 0xFFFF
  const UINT32_MAX: nat := 0xFFFF_FFFF

  predicate IsUpper(c: char) { 'A' <= c <= 'Z' }
  predicate IsLower(c: char) { 'a' <= c <= 'z' }
  predicate IsDigit(c: char) { '0' <= c <= '9' }
  predicate IsAlpha(c: char) { IsUpper(c) || IsLower(c) }
  predicate IsAlnum(c: char) { IsAlpha(c) || IsDigit(c) }
  predicate IsHexDigit(c: char) { IsDigit(c) || 'a' <= c <= 'f' || 'A' <= c <= 'F' }

  /** `isspace`: blank, tab, newline, vertical tab, form feed, carriage return. */
  predicate IsSpace(c: char) {
    c == ' ' || c == '\t' || c == '\n' || c == '\r' || c == 11 as char || c == 12 as char
  }

  /** `tolower` for one character: only 'A'..'Z' change. */
  function ToLower(c: char): (r: char)
    ensures IsUpper(c) ==> IsLower(r) && r as int == c as int + 32
    ensures !IsUpper(c) ==> r == c
  {
    if IsUpper(c) then (c as int + 32) as char else c
  }

  /** The string with every letter folded to lower case. */
  function Lower(s: string): (r: string)
    ensures |r| == |s|
    ensures forall i :: 0 <= i < |s| ==> r[i] == ToLower(s[i])
  {
    seq(|s|, i requires 0 <= i < |s| => ToLower(s[i]))
  }

  /** `strcasecmp(a, b) == 0`: equal after ASCII case folding. */
  predicate EqualsIgnoreCase(a: string, b: string) {
    Lower(a) == Lower(b)
  }

  /** Case-insensitive equality is an equivalence and implies equal length. */
  lemma EqualsIgnoreCaseFacts(a: string, b: string, c: string)
    ensures EqualsIgnoreCase(a, a)
    ensures EqualsIgnoreCase(a, b) ==> EqualsIgnoreCase(b, a) && |a| == |b|
    ensures EqualsIgnoreCase(a, b) && EqualsIgnoreCase(b, c) ==> EqualsIgnoreCase(a, c)
  {
    assert EqualsIgnoreCase(a, b) ==> |Lower(a)| == |Lower(b)|;
  }

  /** Two strings that differ (ignoring case) at one index differ. */
  lemma DiffersAt(a: string, b: string, i: nat)
    requires i < |a| && i < |b| && ToLower(a[i]) != ToLower(b[i])
    ensures !EqualsIgnoreCase(a, b)
  {
    assert Lower(a)[i] != Lower(b)[i];
  }

  /** The value 0..15 of one hexadecimal digit. */
  function HexValue(c: char): (v: nat)
    requires IsHexDigit(c)
    ensures v < 16
  {
    if IsDigit(c) then c as nat - '0' as nat
    else if 'a' <= c <= 'f' then c as nat - 'a' as nat + 10
    else c as nat - 'A' as nat + 10
  }

  /** The lower-case hexadecimal digit for 0..15. */
  function HexDigit(v: nat): (c: char)
    requires v < 16
    ensures IsHexDigit(c) && HexValue(c) == v
  {
    if v < 10 then ('0' as int + v) as char else ('a' as int + v - 10) as char
  }

  function Min(a: int, b: int): int { if a <= b then a else b }
  function Max(a: int, b: int): int { if a >= b then a else b }

  /** The first `n` characters of `s`, all of `s` when it is shorter: what
      `strncpy`, `strnlen` or `httpd_query_key_value` keep of a string when
      they may write at most `n` characters. */
  function Prefix(s: string, n: nat): (r: string)
    ensures |r| == Min(|s|, n) && r == s[..|r|]
  {
    if |s| <= n then s else s[..n]
  }
}
