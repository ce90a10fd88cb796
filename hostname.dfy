/** The mDNS/DHCP host name cleaner of the network component
    (`sanitize_hostname`): letters are folded to lower case, [a-z0-9] kept,
    blank, '_' and '-' collapse to one '-' (never leading), everything else is
    dropped, trailing dashes are stripped, an empty result falls back to
    "broker" and the historical default "brocker" is rewritten to "broker". */
module Hostname {
  import opened Common

  const Fallback: string := "broker"
  const LegacyName: string := "brocker"

  predicate IsHostChar(c: char) { IsLower(c) || IsDigit(c) }
  predicate IsSeparator(c: char) { c == ' ' || c == '_' || c == '-' }

  /** One loop iteration: the output so far after reading `c`. */
  function Push(acc: string, c: char): (r: string)
    ensures r == acc || (|r| == |acc| + 1 && r[..|acc|] == acc)
  {
    var ch := ToLower(c);
    if IsHostChar(ch) then acc + [ch]
    else if IsSeparator(ch) then (if |acc| > 0 && acc[|acc| - 1] != '-' then acc + ['-'] else acc)
    else acc
  }

  /** The main loop: read `rest` while fewer than `cap` characters are out. */
  function Scan(rest: string, acc: string, cap: nat): string
    decreases |rest|
  {
    if |rest| == 0 || |acc| >= cap then acc else Scan(rest[1..], Push(acc, rest[0]), cap)
  }

  /** Drop trailing dashes. */
  function StripDashes(s: string): (r: string)
    ensures |r| <= |s| && r == s[..|r|]
    ensures r == [] || r[|r| - 1] != '-'
    ensures forall i :: |r| <= i < |s| ==> s[i] == '-'
  {
    if |s| > 0 && s[|s| - 1] == '-' then StripDashes(s[..|s| - 1]) else s
  }

  lemma StripDashesStep(s: string, k: nat)
    requires 0 < k <= |s| && s[k - 1] == '-'
    ensures StripDashes(s[..k]) == StripDashes(s[..k - 1])
  {
    assert s[..k][..k - 1] == s[..k - 1];
  }

  lemma StripDashesDone(s: string)
    requires s == [] || s[|s| - 1] != '-'
    ensures StripDashes(s) == s
  {
  }

  /** The C string `sanitize_hostname(input, out, outLen)` leaves in `out`
      for a buffer of at least 8 bytes. */
  function Sanitize(input: string, outLen: nat): string
    requires outLen >= 8
  {
    var src := if |input| > 0 then input else Fallback;
    var stripped := StripDashes(Scan(src, [], outLen - 1));
    if stripped == [] || stripped == LegacyName then Fallback else stripped
  }

  /** A well-formed host name: only [a-z0-9-], no leading or trailing dash
      and no two dashes in a row. */
  predicate WellFormed(s: string) {
    (forall i :: 0 <= i < |s| ==> IsHostChar(s[i]) || s[i] == '-')
    && (|s| > 0 ==> s[0] != '-' && s[|s| - 1] != '-')
    && (forall i :: 0 <= i < |s| - 1 ==> !(s[i] == '-' && s[i + 1] == '-'))
  }

  /** What the loop keeps: allowed characters, no leading dash, no "--". */
  predicate ScanShape(s: string) {
    (forall i :: 0 <= i < |s| ==> IsHostChar(s[i]) || s[i] == '-')
    && (|s| > 0 ==> s[0] != '-')
    && (forall i :: 0 <= i < |s| - 1 ==> !(s[i] == '-' && s[i + 1] == '-'))
  }

  lemma {:induction false} ScanKeepsShape(rest: string, acc: string, cap: nat)
    requires ScanShape(acc) && |acc| <= cap
    ensures ScanShape(Scan(rest, acc, cap)) && |Scan(rest, acc, cap)| <= cap
    decreases |rest|
  {
    if |rest| > 0 && |acc| < cap {
      var next := Push(acc, rest[0]);
      assert ScanShape(next);
      ScanKeepsShape(rest[1..], next, cap);
    }
  }

  /** Every result is a non-empty, well-formed host name that fits the
      buffer with its terminator and is never the legacy spelling. */
  lemma SanitizeWellFormed(input: string, outLen: nat)
    requires outLen >= 8
    ensures var r := Sanitize(input, outLen);
      WellFormed(r) && 0 < |r| < outLen && r != LegacyName
  {
    var src := if |input| > 0 then input else Fallback;
    ScanKeepsShape(src, [], outLen - 1);
    var scanned := Scan(src, [], outLen - 1);
    StripKeepsShape(scanned);
    FallbackWellFormed();
  }

  lemma FallbackWellFormed()
    ensures WellFormed(Fallback) && |Fallback| == 6 && Fallback != LegacyName
  {
    assert Fallback == ['b', 'r', 'o', 'k', 'e', 'r'];
  }

  /** Stripping the trailing dashes of what the loop keeps leaves a
      well-formed name (or nothing). */
  lemma StripKeepsShape(s: string)
    requires ScanShape(s)
    ensures WellFormed(StripDashes(s)) && |StripDashes(s)| <= |s|
  {
    var r := StripDashes(s);
    assert r == s[..|r|];
    assert forall i :: 0 <= i < |r| ==> r[i] == s[i];
  }

  /** Reading the characters of a well-formed name rebuilds that name. */
  lemma {:induction false} ScanWellFormed(w: string, k: nat, cap: nat)
    requires WellFormed(w) && |w| <= cap && k <= |w|
    ensures Scan(w[k..], w[..k], cap) == w
    decreases |w| - k
  {
    if k < |w| {
      assert w[k..][0] == w[k] && w[k..][1..] == w[k + 1..];
      assert ToLower(w[k]) == w[k];
      assert Push(w[..k], w[k]) == w[..k + 1] by {
        if w[k] == '-' {
          assert k > 0 && w[k - 1] != '-';
        }
      }
      ScanWellFormed(w, k + 1, cap);
    }
  }

  /** Sanitising is idempotent: a sanitised name is left as it is. */
  lemma SanitizeIdempotent(input: string, outLen: nat)
    requires outLen >= 8
    ensures Sanitize(Sanitize(input, outLen), outLen) == Sanitize(input, outLen)
  {
    var r := Sanitize(input, outLen);
    SanitizeWellFormed(input, outLen);
    ScanWellFormed(r, 0, outLen - 1);
    assert r[0..] == r && r[..0] == [];
    assert StripDashes(r) == r;
  }

  /** `sanitize_hostname(input, out, out.Length)`. The loop writes the cells
      of `out` one by one and backs up over trailing dashes; `n` is the
      length of the resulting C string. */
  method SanitizeInto(input: string, out: array<char>) returns (n: nat)
    requires out.Length >= 8
    modifies out
    ensures n < out.Length && out[n] == '\0'
    ensures out[..n] == Sanitize(input, out.Length)
  {
    var src := if |input| > 0 then input else Fallback;
    var di := ScanInto(src, out);
    di := TrimDashes(out, di);
    ghost var stripped := out[..di];
    assert stripped == StripDashes(Scan(src, [], out.Length - 1));
    assert Sanitize(input, out.Length) == if stripped == [] || stripped == LegacyName then Fallback else stripped;
    if di == 0 || out[..di] == LegacyName {
      WriteFallback(out);
      n := 6;
    } else {
      out[di] := '\0';
      n := di;
      assert out[..n] == stripped;
    }
  }

  /** The loop that backs up over the trailing dashes of the first `end`
      cells. */
  method TrimDashes(out: array<char>, end: nat) returns (di: nat)
    requires end <= out.Length
    ensures di <= end && out[..di] == StripDashes(out[..end])
  {
    di := end;
    while di > 0 && out[di - 1] == '-'
      invariant 0 <= di <= end
      invariant StripDashes(out[..di]) == StripDashes(out[..end])
    {
      StripDashesStep(out[..], di);
      assert out[..][..di] == out[..di] && out[..][..di - 1] == out[..di - 1];
      di := di - 1;
    }
    StripDashesDone(out[..di]);
  }

  /** `strcpy(out, "broker")`. */
  method WriteFallback(out: array<char>)
    requires out.Length >= 7
    modifies out
    ensures out[..6] == Fallback && out[6] == '\0'
  {
    out[0], out[1], out[2], out[3], out[4], out[5], out[6] := 'b', 'r', 'o', 'k', 'e', 'r', '\0';
  }

  /** The main loop of `sanitize_hostname`: copies the cleaned characters of
      `src` into `out` while fewer than `out.Length - 1` are stored. */
  method ScanInto(src: string, out: array<char>) returns (di: nat)
    requires out.Length >= 1
    modifies out
    ensures di < out.Length && out[..di] == Scan(src, [], out.Length - 1)
  {
    var cap := out.Length - 1;
    di := 0;
    var i := 0;
    while i < |src| && di < cap
      invariant 0 <= i <= |src| && di <= cap
      invariant Scan(src[i..], out[..di], cap) == Scan(src, [], cap)
      decreases |src| - i
    {
      assert src[i..][1..] == src[i + 1..];
      ghost var before := out[..di];
      var ch := ToLower(src[i]);
      if IsHostChar(ch) {
        out[di] := ch;
        di := di + 1;
        assert out[..di] == before + [ch];
      } else if IsSeparator(ch) {
        if di > 0 && out[di - 1] != '-' {
          out[di] := '-';
          di := di + 1;
          assert out[..di] == before + ['-'];
        }
      }
      assert out[..di] == Push(before, src[i]);
      i := i + 1;
    }
  }
}
