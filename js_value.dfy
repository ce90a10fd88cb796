/** The part of JavaScript's value semantics the browser editors rely on
    (`devices_wizard.js`, `devices_editor.js`, `devices_remote.js`): dynamic
    values as `JSON.parse` produces them, truthiness, property reads and
    writes in sloppy mode, `parseInt(s, 10)`, `String(v)` and the splice
    arithmetic of arrays. Numbers are integers here. */
module JsValue {
  import opened Common

  /** A JavaScript value. An array keeps, besides its elements, the named
      properties a script stored on it; `JSON.stringify` drops those. */
  datatype Value =
    | Undefined
    | Null
    | Bool(b: bool)
    | Num(n: int)
    | Str(s: string)
    | Arr(items: seq<Value>, named: map<string, Value>)
    | Obj(props: map<string, Value>)

  /** How a handler ends: normally with a value, or by a thrown `TypeError`
      (a property read on `null`/`undefined`, a call of a missing method). */
  datatype Completion<T> = Done(value: T) | Threw

  /** An array literal. */
  function List(xs: seq<Value>): Value { Arr(xs, map[]) }

  const EmptyObject: Value := Obj(map[])
  const EmptyString: Value := Str("")

  /** `!!v`. */
  predicate Truthy(v: Value) {
    match v
    case Undefined => false
    case Null => false
    case Bool(b) => b
    case Num(n) => n != 0
    case Str(s) => s != ""
    case _ => true
  }

  /** `v === null || v === undefined`: the values whose property reads throw. */
  predicate Nullish(v: Value) { v.Undefined? || v.Null? }

  /** `v && typeof v === 'object'`. */
  predicate IsObjectLike(v: Value) { v.Arr? || v.Obj? }

  /** `a || b`. */
  function Or(a: Value, b: Value): Value { if Truthy(a) then a else b }

  /** `v || ''`. */
  function TextOr(v: Value): Value { Or(v, EmptyString) }

  /** `typeof v !== 'string' ? '' : v`. */
  function StringOnly(v: Value): Value { if v.Str? then v else EmptyString }

  /** `!!v` as a value. */
  function AsBool(v: Value): Value { Bool(Truthy(v)) }

  /** `v[key]` for a named (non-index) key. A primitive has none of the keys
      the editors read; `null`/`undefined` would throw and are excluded by
      every caller's guard or reported by it. */
  function Get(v: Value, key: string): Value {
    match v
    case Obj(m) => if key in m then m[key] else Undefined
    case Arr(_, m) => if key in m then m[key] else Undefined
    case _ => Undefined
  }

  /** `v[key] = x`: a write to a primitive is silently dropped (sloppy mode). */
  function Put(v: Value, key: string, x: Value): Value {
    match v
    case Obj(m) => Obj(m[key := x])
    case Arr(items, m) => Arr(items, m[key := x])
    case _ => v
  }

  /** `delete v[key]`. */
  function Delete(v: Value, key: string): Value {
    match v
    case Obj(m) => Obj(m - {key})
    case Arr(items, m) => Arr(items, m - {key})
    case _ => v
  }

  /** Storing a key's own value back changes nothing. */
  lemma PutOfGet(v: Value, k: string)
    requires !Get(v, k).Undefined?
    ensures Put(v, k, Get(v, k)) == v
  {
    match v
    case Obj(m) => assert m[k := m[k]] == m;
    case Arr(items, m) => assert m[k := m[k]] == m;
  }

  /** Reading after a store: the stored key reads back, every other key is kept. */
  lemma GetPut(v: Value, k: string, x: Value)
    ensures forall j :: Get(Put(v, k, x), j) == if IsObjectLike(v) && j == k then x else Get(v, j)
    ensures IsObjectLike(Put(v, k, x)) == IsObjectLike(v)
  {
  }

  /** A second store under the same key overrides the first. */
  lemma PutOver(v: Value, k: string, x: Value, y: Value)
    ensures Put(Put(v, k, x), k, y) == Put(v, k, y)
  {
    match v
    case Obj(m) => assert m[k := x][k := y] == m[k := y];
    case Arr(items, m) => assert m[k := x][k := y] == m[k := y];
    case _ =>
  }

  /** `v[i]` for an integer index. */
  function At(v: Value, i: int): Value {
    if v.Arr? && 0 <= i < |v.items| then v.items[i] else Undefined
  }

  /** `v[i] = x` for an index already inside the array. */
  function SetAt(v: Value, i: int, x: Value): Value {
    if v.Arr? && 0 <= i < |v.items| then Arr(v.items[i := x], v.named) else v
  }

  /** The elements of an array, or none. */
  function ItemsOf(v: Value): seq<Value> { if v.Arr? then v.items else [] }

  /** `v.push(x)`: only arrays have the method. */
  function Push(v: Value, x: Value): (r: Completion<Value>)
    ensures r.Done? <==> v.Arr?
    ensures r.Done? ==> r.value.Arr? && r.value.items == v.items + [x]
  {
    if v.Arr? then Done(Arr(v.items + [x], v.named)) else Threw
  }

  // ----- numbers and strings -----

  /** The white space `parseInt` and `trim` skip, ECMAScript's WhiteSpace
      and LineTerminator: the C blanks, the byte order mark, the line and
      paragraph separators, and every space separator of Unicode category
      Zs (no-break space, ogham space mark, the spaces U+2000 to U+200A,
      narrow no-break space, medium mathematical space, ideographic
      space). */
  predicate IsJsSpace(c: char) {
    IsSpace(c) || c == 0xFEFF as char || c == 0x2028 as char || c == 0x2029 as char
    || c == 0xA0 as char || c == 0x1680 as char || 0x2000 as char <= c <= 0x200A as char
    || c == 0x202F as char || c == 0x205F as char || c == 0x3000 as char
  }

  /** The ideographic space is white space to `trim` and `parseInt`:
      "\u30005" parses as 5 and trims to "5". */
  lemma IdeographicSpaceSkipped()
    ensures ParseInt([0x3000 as char, '5']) == Some(5)
    ensures Trim([0x3000 as char, '5', 0x3000 as char]) == ['5']
  {
    var sp := 0x3000 as char;
    assert [sp, '5'][1..] == ['5'];
    assert SkipSpace(['5']) == ['5'];
    assert DigitPrefix(['5'][1..]) == [];
    assert DigitPrefix(['5']) == ['5'];
    assert ['5'][..0] == [];
    assert DigitsValue(['5']) == 5;
    assert [sp, '5', sp][1..] == ['5', sp];
    assert SkipSpace(['5', sp]) == ['5', sp];
    assert ['5', sp][..1] == ['5'];
    assert SkipSpaceEnd(['5']) == ['5'];
  }

  function DigitChar(d: nat): char
    requires d < 10
  {
    ('0' as int + d) as char
  }

  function DigitOf(c: char): nat
    requires IsDigit(c)
  {
    c as int - '0' as int
  }

  /** The decimal digits of a natural number, most significant first. */
  function Digits(n: nat): (r: string)
    ensures |r| > 0
    ensures forall i :: 0 <= i < |r| ==> IsDigit(r[i])
  {
    if n < 10 then [DigitChar(n)] else Digits(n / 10) + [DigitChar(n % 10)]
  }

  /** `String(n)` for an integer number. */
  function DecimalString(n: int): string {
    if n < 0 then "-" + Digits(-n) else Digits(n)
  }

  /** The value of a run of decimal digits. */
  function DigitsValue(d: string): nat
    requires forall i :: 0 <= i < |d| ==> IsDigit(d[i])
  {
    if d == [] then 0 else DigitsValue(d[..|d| - 1]) * 10 + DigitOf(d[|d| - 1])
  }

  /** The longest prefix of `s` made of decimal digits. */
  function DigitPrefix(s: string): (r: string)
    ensures |r| <= |s| && r == s[..|r|]
    ensures forall i :: 0 <= i < |r| ==> IsDigit(r[i])
    ensures |r| < |s| ==> !IsDigit(s[|r|])
  {
    if s == [] || !IsDigit(s[0]) then [] else [s[0]] + DigitPrefix(s[1..])
  }

  /** The string without its leading white space. */
  function SkipSpace(s: string): string {
    if s != [] && IsJsSpace(s[0]) then SkipSpace(s[1..]) else s
  }

  /** What `SkipSpace` leaves is a suffix with no white space in front. */
  lemma {:induction false} SkipSpaceFacts(s: string)
    ensures |SkipSpace(s)| <= |s| && SkipSpace(s) == s[|s| - |SkipSpace(s)|..]
    ensures SkipSpace(s) != [] ==> !IsJsSpace(SkipSpace(s)[0])
  {
    if s != [] && IsJsSpace(s[0]) {
      SkipSpaceFacts(s[1..]);
    }
  }

  /** The string without its trailing white space. */
  function SkipSpaceEnd(s: string): (r: string)
    ensures |r| <= |s| && r == s[..|r|]
    ensures r != [] ==> !IsJsSpace(r[|r| - 1])
  {
    if s != [] && IsJsSpace(s[|s| - 1]) then SkipSpaceEnd(s[..|s| - 1]) else s
  }

  /** `s.trim()`: a piece of `s` with no white space at either end. */
  function Trim(s: string): (r: string)
    ensures forall i :: 0 <= i < |r| ==> r[i] in s
    ensures r != [] ==> !IsJsSpace(r[0]) && !IsJsSpace(r[|r| - 1])
  {
    var t := SkipSpace(s);
    SkipSpaceFacts(s);
    var r := SkipSpaceEnd(t);
    assert forall i :: 0 <= i < |r| ==> r[i] == s[|s| - |t| + i];
    r
  }

  /** A string with no white space at either end is its own trim, and a
      leading blank is trimmed away. */
  lemma TrimFacts(s: string)
    ensures (s == [] || (!IsJsSpace(s[0]) && !IsJsSpace(s[|s| - 1]))) ==> Trim(s) == s
    ensures Trim(" " + s) == Trim(s)
  {
    assert (" " + s)[1..] == s;
  }

  /** `parseInt(s, 10)`: leading white space, an optional sign, then the
      longest run of digits; `None` stands for `NaN` (no digit at all). */
  function ParseInt(s: string): Option<int> {
    var t := SkipSpace(s);
    var negative := t != [] && t[0] == '-';
    var body := if t != [] && (t[0] == '-' || t[0] == '+') then t[1..] else t;
    var d := DigitPrefix(body);
    if d == [] then None
    else if negative then Some(-(DigitsValue(d) as int))
    else Some(DigitsValue(d) as int)
  }

  lemma {:induction false} DigitPrefixOfDigits(s: string)
    requires forall i :: 0 <= i < |s| ==> IsDigit(s[i])
    ensures DigitPrefix(s) == s
  {
    if s != [] {
      DigitPrefixOfDigits(s[1..]);
    }
  }

  lemma {:induction false} DigitsValueOfDigits(n: nat)
    ensures DigitsValue(Digits(n)) == n
  {
    if n >= 10 {
      DigitsValueOfDigits(n / 10);
      var d := Digits(n);
      assert d[..|d| - 1] == Digits(n / 10);
    }
  }

  /** `parseInt(String(n), 10) === n`: the decimal text of an integer reads
      back as the same integer. */
  lemma ParseIntOfDecimal(n: int)
    ensures ParseInt(DecimalString(n)) == Some(n)
  {
    var m: nat := if n < 0 then -n else n;
    var d := Digits(m);
    DigitPrefixOfDigits(d);
    DigitsValueOfDigits(m);
    if n < 0 {
      SkipSpaceOfSign(d);
      ParseIntSigned(DecimalString(n), d);
    } else {
      SkipSpaceOfDigits(d);
      ParseIntDigits(d, d);
    }
  }

  lemma SkipSpaceOfDigits(d: string)
    requires d != [] && IsDigit(d[0])
    ensures SkipSpace(d) == d
  {
    assert !IsJsSpace(d[0]);
  }

  lemma SkipSpaceOfSign(d: string)
    ensures SkipSpace("-" + d) == "-" + d
  {
    assert ("-" + d)[0] == '-';
  }

  /** Text whose first non-blank character starts a run of digits reads as
      the value of that run. */
  lemma ParseIntDigits(t: string, d: string)
    requires d != [] && forall i :: 0 <= i < |d| ==> IsDigit(d[i])
    requires DigitPrefix(d) == d && SkipSpace(t) == d
    ensures ParseInt(t) == Some(DigitsValue(d) as int)
  {
    assert d[0] != '-' && d[0] != '+';
  }

  /** A minus sign in front of a run of digits negates its value. */
  lemma ParseIntSigned(t: string, d: string)
    requires d != [] && forall i :: 0 <= i < |d| ==> IsDigit(d[i])
    requires DigitPrefix(d) == d && SkipSpace(t) == "-" + d
    ensures ParseInt(t) == Some(-(DigitsValue(d) as int))
  {
    assert ("-" + d)[1..] == d;
  }

  /** `String(v)`, as `parseInt` and `toSafeString` see it. An array joins
      its elements with commas, writing `null`/`undefined` as nothing. */
  function ToJsString(v: Value): string {
    match v
    case Undefined => "undefined"
    case Null => "null"
    case Bool(b) => if b then "true" else "false"
    case Num(n) => DecimalString(n)
    case Str(s) => s
    case Arr(items, _) => Join(seq(|items|, i requires 0 <= i < |items| =>
                                    if Nullish(items[i]) then "" else ToJsString(items[i])), ",")
    case Obj(_) => "[object Object]"
  }

  /** `parts.join(sep)`. */
  function Join(parts: seq<string>, sep: string): string {
    if parts == [] then "" else if |parts| == 1 then parts[0] else parts[0] + sep + Join(parts[1..], sep)
  }

  /** `s.split(sep)` for a one-character separator: the pieces between the
      separators, none of which holds one. */
  function Split(s: string, sep: char): (r: seq<string>)
    ensures |r| >= 1
    ensures forall i :: 0 <= i < |r| ==> sep !in r[i]
  {
    if s == [] then [""]
    else if s[0] == sep then [""] + Split(s[1..], sep)
    else
      var rest := Split(s[1..], sep);
      [[s[0]] + rest[0]] + rest[1..]
  }

  /** A string without the separator splits into itself. */
  lemma {:induction false} SplitWithout(s: string, sep: char)
    requires sep !in s
    ensures Split(s, sep) == [s]
  {
    if s != [] {
      assert s[0] in s;
      assert forall c :: c in s[1..] ==> c in s;
      SplitWithout(s[1..], sep);
      assert [s[0]] + s[1..] == s;
    }
  }

  /** A piece without the separator in front of `b` joins the first part of
      `b`; followed by a separator, it is a part of its own. */
  lemma {:induction false} SplitPrefix(a: string, sep: char, b: string)
    requires sep !in a
    ensures Split(a + b, sep) == [a + Split(b, sep)[0]] + Split(b, sep)[1..]
    ensures Split(a + [sep] + b, sep) == [a] + Split(b, sep)
  {
    if a == [] {
      assert a + b == b;
      assert Split(b, sep) == [Split(b, sep)[0]] + Split(b, sep)[1..];
      assert a + Split(b, sep)[0] == Split(b, sep)[0];
      assert (a + [sep] + b)[1..] == b;
    } else {
      assert a[0] in a;
      assert forall c :: c in a[1..] ==> c in a;
      assert (a + b)[1..] == a[1..] + b;
      assert (a + [sep] + b)[1..] == a[1..] + [sep] + b;
      SplitPrefix(a[1..], sep, b);
      assert [a[0]] + a[1..] == a;
      assert [a[0]] + (a[1..] + Split(b, sep)[0]) == a + Split(b, sep)[0];
    }
  }

  /** `toInt` (wizard_05_mutations.js): `parseInt(value, 10)`, with 0 for `NaN`. */
  function ToInt(v: Value): int {
    match ParseInt(ToJsString(v))
    case Some(n) => n
    case None => 0
  }

  /** A number keeps its value through `toInt`, and so does its decimal text. */
  lemma ToIntOfNumber(n: int)
    ensures ToInt(Num(n)) == n
    ensures ToInt(Str(DecimalString(n))) == n
  {
    ParseIntOfDecimal(n);
  }

  /** Values with no digits at all become 0 through `toInt`. */
  lemma ToIntOfNonNumeric()
    ensures ToInt(Undefined) == 0 && ToInt(Null) == 0
    ensures ToInt(Bool(true)) == 0 && ToInt(Bool(false)) == 0
    ensures ToInt(EmptyString) == 0 && ToInt(EmptyObject) == 0
  {
    LetterStartIsNaN("undefined");
    LetterStartIsNaN("null");
    LetterStartIsNaN("true");
    LetterStartIsNaN("false");
    LetterStartIsNaN("[object Object]");
  }

  /** Text starting with a character that is neither white space, a sign
      nor a digit parses to `NaN`. */
  lemma LetterStartIsNaN(s: string)
    requires s != [] && !IsJsSpace(s[0]) && s[0] != '-' && s[0] != '+' && !IsDigit(s[0])
    ensures ParseInt(s) == None
  {
    assert SkipSpace(s) == s;
  }

  /** `intOrDefault(value, fallback)`: the parsed integer, else the fallback
      when it is a number, else 0. */
  function IntOrDefault(v: Value, fallback: Value): (r: int)
    ensures ParseInt(ToJsString(v)).Some? ==> r == ParseInt(ToJsString(v)).value
    ensures ParseInt(ToJsString(v)).None? ==> r == (if fallback.Num? then fallback.n else 0)
  {
    match ParseInt(ToJsString(v))
    case Some(n) => n
    case None => if fallback.Num? then fallback.n else 0
  }

  /** The editors call `intOrDefault` without a fallback, which is then
      exactly `toInt`. */
  lemma IntOrDefaultWithoutFallback(v: Value)
    ensures IntOrDefault(v, Undefined) == ToInt(v)
  {
  }

  /** `clamp(value, min, max)` = `Math.max(min, Math.min(max, value))`. */
  function Clamp(value: int, lo: int, hi: int): (r: int)
    ensures lo <= hi ==> lo <= r <= hi
    ensures lo <= value <= hi ==> r == value
    ensures value < lo ==> r == lo
    ensures lo <= hi < value ==> r == hi
  {
    Max(lo, Min(hi, value))
  }

  /** `toSafeString`: `null` and `undefined` become the empty string,
      everything else `String(value)`. */
  function ToSafeString(v: Value): (r: string)
    ensures Nullish(v) ==> r == ""
    ensures v.Str? ==> r == v.s
    ensures v.Num? ==> ParseInt(r) == Some(v.n)
  {
    if Nullish(v) then ""
    else if v.Num? then ParseIntOfDecimal(v.n); ToJsString(v)
    else ToJsString(v)
  }

  /** `normalizeValue(value, type)` for an input element's text: a number
      input is parsed (0 when unparsable), the words "true"/"false" become
      booleans, any other text stays as it is. */
  function NormalizeValue(value: string, kind: string): (r: Value)
    ensures kind == "number" ==> r.Num? && r.n == ToInt(Str(value))
    ensures kind != "number" && value == "true" ==> r == Bool(true)
    ensures kind != "number" && value == "false" ==> r == Bool(false)
    ensures kind != "number" && value != "true" && value != "false" ==> r == Str(value)
  {
    if kind == "number" then
      match ParseInt(value)
      case Some(n) => Num(n)
      case None => Num(0)
    else if value == "true" then Bool(true)
    else if value == "false" then Bool(false)
    else Str(value)
  }

  /** Normalising the text an input shows for a stored number, boolean or
      other string gives the stored value back. */
  lemma NormalizeValueRoundTrip(n: int, b: bool, s: string)
    ensures NormalizeValue(DecimalString(n), "number") == Num(n)
    ensures NormalizeValue(if b then "true" else "false", "text") == Bool(b)
    ensures s != "true" && s != "false" ==> NormalizeValue(s, "text") == Str(s)
  {
    ParseIntOfDecimal(n);
  }

  // ----- splice -----

  /** Where `splice(start, …)` starts on an array of `len` elements: `NaN`
      counts as 0, a negative start counts from the end, and the start is
      clamped to [0, len]. */
  function SpliceStart(len: nat, start: Option<int>): (k: nat)
    ensures k <= len
    ensures start.Some? && 0 <= start.value <= len ==> k == start.value
    ensures start.Some? && start.value < 0 && len + start.value >= 0 ==> k == len + start.value
  {
    match start
    case None => 0
    case Some(s) => if s < 0 then Max(len + s, 0) else Min(s, len)
  }

  /** `xs.splice(start, 1)`: removes the element at the normalised start,
      if there is one. */
  function SpliceOut(xs: seq<Value>, start: Option<int>): (r: seq<Value>)
    ensures SpliceStart(|xs|, start) < |xs| ==> |r| == |xs| - 1
    ensures SpliceStart(|xs|, start) == |xs| ==> r == xs
    ensures multiset(r) <= multiset(xs)
  {
    var k := SpliceStart(|xs|, start);
    if k < |xs| then
      assert xs == xs[..k] + [xs[k]] + xs[k + 1..];
      xs[..k] + xs[k + 1..]
    else xs
  }

  /** Removing the element at an index keeps every other element, in order,
      and loses exactly that one. */
  lemma SpliceOutAt(xs: seq<Value>, k: nat)
    requires k < |xs|
    ensures SpliceOut(xs, Some(k)) == xs[..k] + xs[k + 1..]
    ensures multiset(SpliceOut(xs, Some(k))) + multiset{xs[k]} == multiset(xs)
  {
    assert xs == xs[..k] + [xs[k]] + xs[k + 1..];
  }

  /** An unguarded `splice(idx, 1)` still removes something at a `NaN` or
      negative index: `NaN` takes the first element and -1 the last. */
  lemma SpliceOutNaNOrNegative(xs: seq<Value>)
    requires xs != []
    ensures SpliceOut(xs, None) == xs[1..]
    ensures SpliceOut(xs, Some(-1)) == xs[..|xs| - 1]
  {
    assert xs[|xs|..] == [];
  }

  /** `xs.splice(k, 0, x)` for a position inside the array. */
  function InsertAt(xs: seq<Value>, k: nat, x: Value): (r: seq<Value>)
    requires k <= |xs|
    ensures |r| == |xs| + 1 && r[k] == x
    ensures r[..k] == xs[..k] && r[k + 1..] == xs[k..]
    ensures multiset(r) == multiset(xs) + multiset{x}
  {
    assert xs == xs[..k] + xs[k..];
    xs[..k] + [x] + xs[k..]
  }

  // ----- JSON.parse(JSON.stringify(v)) -----

  /** The deep copy a JSON round trip makes: object properties holding
      `undefined` disappear, `undefined` array elements become `null`, and
      the named properties of arrays are not written. */
  function JsonClone(v: Value): Value {
    match v
    case Undefined => Null
    case Arr(items, _) => Arr(seq(|items|, i requires 0 <= i < |items| => JsonClone(items[i])), map[])
    case Obj(props) => Obj(map k | k in props && !props[k].Undefined? :: JsonClone(props[k]))
    case _ => v
  }

  /** A value JSON can carry as it is: no `undefined` anywhere and no named
      array properties. */
  predicate IsJson(v: Value) {
    match v
    case Undefined => false
    case Arr(items, named) => named == map[] && forall i :: 0 <= i < |items| ==> IsJson(items[i])
    case Obj(props) => forall k :: k in props ==> IsJson(props[k])
    case _ => true
  }

  /** The copy is always JSON. */
  lemma {:induction false} JsonCloneIsJson(v: Value)
    ensures IsJson(JsonClone(v))
  {
    match v
    case Arr(items, _) =>
      forall i | 0 <= i < |items| ensures IsJson(JsonClone(items[i])) { JsonCloneIsJson(items[i]); }
    case Obj(props) =>
      forall k | k in props && !props[k].Undefined? ensures IsJson(JsonClone(props[k])) { JsonCloneIsJson(props[k]); }
    case _ =>
  }

  /** A value that is already JSON is copied exactly; so copying twice is
      copying once. */
  lemma {:induction false} JsonCloneKeepsJson(v: Value)
    requires IsJson(v)
    ensures JsonClone(v) == v
  {
    match v
    case Arr(items, _) =>
      forall i | 0 <= i < |items| ensures JsonClone(items[i]) == items[i] { JsonCloneKeepsJson(items[i]); }
      assert seq(|items|, i requires 0 <= i < |items| => JsonClone(items[i])) == items;
    case Obj(props) =>
      forall k | k in props ensures JsonClone(props[k]) == props[k] && !props[k].Undefined? { JsonCloneKeepsJson(props[k]); }
      assert (map k | k in props && !props[k].Undefined? :: JsonClone(props[k])) == props;
    case _ =>
  }

  lemma JsonCloneTwice(v: Value)
    ensures JsonClone(JsonClone(v)) == JsonClone(v)
  {
    JsonCloneIsJson(v);
    JsonCloneKeepsJson(JsonClone(v));
  }
}
