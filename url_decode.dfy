/** Form/query decoding of the web UI (`web_ui_url_decode`): "%XX" with two
    hexadecimal digits becomes the byte 0xXX, '+' becomes a blank and every
    other character is copied; the output buffer holds at most
    `out_len - 1` characters followed by a NUL. */
module UrlDecode {
  import opened Common

  /** The byte written for "%hl". */
  function HexByte(h: char, l: char): (c: char)
    requires IsHexDigit(h) && IsHexDigit(l)
    ensures c as nat == 16 * HexValue(h) + HexValue(l) && c as nat <= UINT8_MAX
  {
    (16 * HexValue(h) + HexValue(l)) as char
  }

  /** True when `s` starts with a well-formed escape "%XX". */
  predicate EscapeAt(s: string) {
    |s| >= 3 && s[0] == '%' && IsHexDigit(s[1]) && IsHexDigit(s[2])
  }

  /** The unbounded decoding of the whole input, read from the left. */
  function Decode(s: string): string
    decreases |s|
  {
    if |s| == 0 then []
    else if EscapeAt(s) then [HexByte(s[1], s[2])] + Decode(s[3..])
    else if s[0] == '+' then [' '] + Decode(s[1..])
    else [s[0]] + Decode(s[1..])
  }

  /** Decoding never lengthens its input. */
  lemma {:induction false} DecodeShorter(s: string)
    ensures |Decode(s)| <= |s|
    decreases |s|
  {
    if |s| == 0 {
    } else if EscapeAt(s) {
      DecodeShorter(s[3..]);
    } else {
      DecodeShorter(s[1..]);
    }
  }

  /** Input with neither '%' nor '+' decodes to itself. */
  lemma {:induction false} DecodePlain(s: string)
    requires forall i :: 0 <= i < |s| ==> s[i] != '%' && s[i] != '+'
    ensures Decode(s) == s
    decreases |s|
  {
    if |s| > 0 {
      DecodePlain(s[1..]);
    }
  }

  /** A '%' not followed by two hexadecimal digits is copied literally and
      decoding resumes at the next character. */
  lemma MalformedEscapeCopied(s: string)
    requires |s| > 0 && s[0] == '%' && !EscapeAt(s)
    ensures Decode(s) == ['%'] + Decode(s[1..])
  {
  }

  /** Percent-encoding of every character (below 256) as "%hl": the inverse
      the decoder undoes. */
  function Encode(s: string): (r: string)
    requires forall i :: 0 <= i < |s| ==> s[i] as nat <= UINT8_MAX
    ensures |r| == 3 * |s|
  {
    if |s| == 0 then []
    else ['%', HexDigit(s[0] as nat / 16), HexDigit(s[0] as nat % 16)] + Encode(s[1..])
  }

  /** Every byte string survives percent-encoding followed by decoding. */
  lemma {:induction false} DecodeEncode(s: string)
    requires forall i :: 0 <= i < |s| ==> s[i] as nat <= UINT8_MAX
    ensures Decode(Encode(s)) == s
    decreases |s|
  {
    if |s| > 0 {
      var e := Encode(s);
      assert e[3..] == Encode(s[1..]);
      assert EscapeAt(e);
      assert HexByte(e[1], e[2]) == s[0];
      DecodeEncode(s[1..]);
    }
  }

  /** One step of the decoder at position `i`: an escape consumes three
      characters, anything else one. */
  lemma DecodeStep(s: string, i: nat)
    requires i < |s|
    ensures EscapeAt(s[i..]) <==> (s[i] == '%' && i + 2 < |s| && IsHexDigit(s[i + 1]) && IsHexDigit(s[i + 2]))
    ensures EscapeAt(s[i..]) ==> Decode(s[i..]) == [HexByte(s[i + 1], s[i + 2])] + Decode(s[i + 3..])
    ensures !EscapeAt(s[i..]) ==> Decode(s[i..]) == [if s[i] == '+' then ' ' else s[i]] + Decode(s[i + 1..])
  {
    var rest := s[i..];
    if EscapeAt(rest) {
      assert rest[3..] == s[i + 3..];
    } else {
      assert rest[1..] == s[i + 1..];
    }
  }

  lemma DecodeAppend(d: string, done: string, c: char, rest: string)
    requires d == done + ([c] + rest)
    ensures d == (done + [c]) + rest
  {
  }

  /** `web_ui_url_decode(out, out.Length, input)`. The characters stored are
      the decoding of the input cut to `out.Length - 1`, followed by a NUL;
      the cells after the terminator are untouched. `n` is the length of the
      resulting C string. */
  method UrlDecodeInto(out: array<char>, input: string) returns (n: nat)
    modifies out
    ensures out.Length == 0 ==> n == 0 && out[..] == old(out[..])
    ensures out.Length > 0 ==>
      n < out.Length && out[..n] == Prefix(Decode(input), out.Length - 1) && out[n] == '\0'
      && out[n + 1..] == old(out[n + 1..])
  {
    n := 0;
    if out.Length == 0 {
      return;
    }
    var i := 0;
    while i < |input| && n + 1 < out.Length
      invariant 0 <= i <= |input|
      invariant n < out.Length
      invariant Decode(input) == out[..n] + Decode(input[i..])
      invariant out[n..] == old(out[n..])
      decreases |input| - i
    {
      ghost var before := out[..];
      ghost var done := out[..n];
      var c: char;
      var next: nat;
      if input[i] == '%' && i + 2 < |input| && IsHexDigit(input[i + 1]) && IsHexDigit(input[i + 2]) {
        c, next := HexByte(input[i + 1], input[i + 2]), i + 3;
      } else {
        c, next := if input[i] == '+' then ' ' else input[i], i + 1;
      }
      DecodeStep(input, i);
      assert Decode(input[i..]) == [c] + Decode(input[next..]);
      out[n] := c;
      assert out[..n + 1] == done + [c];
      assert out[n + 1..] == before[n + 1..];
      DecodeAppend(Decode(input), done, c, Decode(input[next..]));
      i, n := next, n + 1;
    }
    ghost var before := out[..];
    out[n] := '\0';
    assert out[..n] == before[..n] && out[n + 1..] == before[n + 1..];
    assert before[n + 1..] == before[n..][1..] && old(out[n + 1..]) == old(out[n..])[1..];
    DecodedPrefix(input, i, before[..n], out.Length - 1);
  }

  /** When the decoder stops, at the end of the input or with the buffer
      full, what it stored is the decoding cut to the buffer's capacity. */
  lemma DecodedPrefix(input: string, i: nat, done: string, cap: nat)
    requires i <= |input| && |done| <= cap && Decode(input) == done + Decode(input[i..])
    requires i == |input| || |done| == cap
    ensures done == Prefix(Decode(input), cap)
  {
    if i == |input| {
      assert Decode(input[i..]) == [];
      assert Decode(input) == done;
    } else {
      assert Decode(input)[..|done|] == done;
    }
  }

  /** The characters of a buffer before its first NUL: the string C code
      reads from it. */
  function CString(s: string): (r: string)
    ensures |r| <= |s| && r == s[..|r|] && '\0' !in r
    ensures |r| < |s| ==> s[|r|] == '\0'
  {
    if |s| == 0 || s[0] == '\0' then []
    else
      var t := CString(s[1..]);
      assert s[..|t| + 1] == [s[0]] + s[1..][..|t|];
      [s[0]] + t
  }

  /** Text without a NUL is read whole. */
  lemma {:induction false} CStringOfClean(s: string)
    requires '\0' !in s
    ensures CString(s) == s
  {
    if |s| > 0 {
      assert s[0] in s;
      assert forall c :: c in s[1..] ==> c in s;
      CStringOfClean(s[1..]);
    }
  }

  /** A query parameter as the web UI handlers read it:
      `httpd_query_key_value` copies at most `size - 1` characters of the
      ENCODED value into a buffer of `size` bytes, `web_ui_url_decode`
      decodes that copy into a second buffer of `size` bytes, and the
      handler reads the second buffer as a C string. The value is cut
      before it is decoded, and a decoded "%00" ends it. */
  function QueryValue(raw: string, size: nat): (r: string)
    requires 0 < size
    ensures |r| < size && |r| <= |raw| && '\0' !in r
  {
    var enc := Prefix(raw, size - 1);
    DecodeShorter(enc);
    CString(Decode(enc))
  }

  /** The second buffer never cuts: the encoded copy holds at most
      `size - 1` characters and decoding does not lengthen it, so what
      `UrlDecodeInto` stores for that copy is its whole decoding. */
  lemma QueryValueOfBuffer(raw: string, size: nat)
    requires 0 < size
    ensures QueryValue(raw, size) == CString(Prefix(Decode(Prefix(raw, size - 1)), size - 1))
  {
    DecodeShorter(Prefix(raw, size - 1));
  }

  /** A value that fits its buffer is read as its decoding, up to a
      decoded NUL; a value that fits and holds no '%', '+' or NUL is read
      as it is. */
  lemma QueryValueFits(raw: string, size: nat)
    requires |raw| < size
    ensures QueryValue(raw, size) == CString(Decode(raw))
    ensures (forall i :: 0 <= i < |raw| ==> raw[i] != '%' && raw[i] != '+' && raw[i] != '\0')
      ==> QueryValue(raw, size) == raw
  {
    if forall i :: 0 <= i < |raw| ==> raw[i] != '%' && raw[i] != '+' && raw[i] != '\0' {
      DecodePlain(raw);
      CStringOfClean(raw);
    }
  }

  lemma {:induction false} EncodeAppend(a: string, b: string)
    requires forall i :: 0 <= i < |a| ==> a[i] as nat <= UINT8_MAX
    requires forall i :: 0 <= i < |b| ==> b[i] as nat <= UINT8_MAX
    ensures Encode(a + b) == Encode(a) + Encode(b)
    decreases |a|
  {
    if |a| > 0 {
      assert (a + b)[1..] == a[1..] + b;
      EncodeAppend(a[1..], b);
    } else {
      assert a + b == b;
    }
  }

  /** Decoding reads an encoded head back and goes on with what follows. */
  lemma {:induction false} DecodeEncodedHead(a: string, t: string)
    requires forall i :: 0 <= i < |a| ==> a[i] as nat <= UINT8_MAX
    ensures Decode(Encode(a) + t) == a + Decode(t)
    decreases |a|
  {
    if |a| > 0 {
      var e := Encode(a) + t;
      var head := ['%', HexDigit(a[0] as nat / 16), HexDigit(a[0] as nat % 16)];
      assert Encode(a) == head + Encode(a[1..]);
      assert e == head + (Encode(a[1..]) + t);
      assert e[3..] == Encode(a[1..]) + t;
      assert EscapeAt(e);
      assert HexByte(e[1], e[2]) == a[0];
      assert Decode(e) == [a[0]] + Decode(e[3..]);
      DecodeEncodedHead(a[1..], t);
      assert a == [a[0]] + a[1..];
    } else {
      assert Encode(a) + t == t;
    }
  }

  /** The cut comes before the decoding. Forty '/' sent as "%2f" escapes
      fill 120 characters; a 96-byte buffer keeps 31 whole escapes and the
      "%2" of the next, so the handler reads 31 '/' followed by "%2",
      where decoding first and cutting the result to 95 characters would
      keep all forty '/'. */
  lemma CutBeforeDecode()
    ensures QueryValue(Encode(seq(40, _ => '/')), 96) == seq(31, _ => '/') + "%2"
    ensures Prefix(Decode(Encode(seq(40, _ => '/'))), 95) == seq(40, _ => '/')
  {
    var s31, s9 := seq(31, _ => '/'), seq(9, _ => '/');
    assert seq(40, _ => '/') == s31 + s9;
    EncodeAppend(s31, s9);
    var raw := Encode(s31) + Encode(s9);
    assert Prefix(raw, 95) == Encode(s31) + "%2" by {
      assert Encode(s9)[..2] == "%2";
      assert raw[..95] == Encode(s31) + Encode(s9)[..2];
    }
    DecodeEncodedHead(s31, "%2");
    assert Decode("%2") == "%2" by {
      MalformedEscapeCopied("%2");
      assert "%2"[1..] == "2";
      DecodePlain("2");
    }
    assert '\0' !in s31 + "%2" by {
      assert forall i :: 0 <= i < |s31 + "%2"| ==> (s31 + "%2")[i] != '\0';
    }
    CStringOfClean(s31 + "%2");
    DecodeEncode(seq(40, _ => '/'));
  }
}
