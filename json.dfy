/** JSON documents as the configuration codec sees them through cJSON: a
    tree of values whose objects keep their members in insertion order, with
    the typed readers of `device_manager_parse.c` built on top. */
module Json {
  import opened Common

  datatype Json =
    | JNull
    | JBool(b: bool)
    | JNumber(n: real)
    | JString(s: string)
    | JArray(items: seq<Json>)
    | JObject(members: seq<Member>)

  datatype Member = Member(key: string, value: Json)

  /** The first member named `key`. */
  function Lookup(ms: seq<Member>, key: string): Option<Json> {
    if |ms| == 0 then None
    else if ms[0].key == key then Some(ms[0].value)
    else Lookup(ms[1..], key)
  }

  /** A lookup finds a member of the object, and finds nothing only when no
      member has the key. */
  lemma {:induction false} LookupSpec(ms: seq<Member>, key: string)
    ensures Lookup(ms, key).Some? ==> Member(key, Lookup(ms, key).value) in ms
    ensures Lookup(ms, key).None? ==> forall m :: m in ms ==> m.key != key
  {
    if |ms| > 0 && ms[0].key != key {
      LookupSpec(ms[1..], key);
      assert forall m :: m in ms ==> m == ms[0] || m in ms[1..];
    }
  }

  /** `cJSON_GetObjectItem`: None when `j` is no object or lacks the key. */
  function Get(j: Json, key: string): (r: Option<Json>)
    ensures !j.JObject? ==> r.None?
  {
    if j.JObject? then Lookup(j.members, key) else None
  }

  /** A lookup in an object whose first member has the key. */
  lemma GetFirst(k: string, v: Json, rest: seq<Member>)
    ensures Get(JObject([Member(k, v)] + rest), k) == Some(v)
  {
  }

  /** A lookup skips a leading member with another key. */
  lemma GetSkip(k: string, v: Json, rest: seq<Member>, key: string)
    requires k != key
    ensures Get(JObject([Member(k, v)] + rest), key) == Get(JObject(rest), key)
  {
    assert ([Member(k, v)] + rest)[1..] == rest;
  }

  /** A member that occurs in an object, under a key whose every member
      carries the same value, is what a lookup of that key finds. */
  lemma GetMember(ms: seq<Member>, k: string, v: Json)
    requires Member(k, v) in ms
    requires forall m :: m in ms && m.key == k ==> m.value == v
    ensures Get(JObject(ms), k) == Some(v)
  {
    LookupSpec(ms, k);
  }

  /** The member at index `i` of the fields that follow `head` is what a
      lookup of its key finds, when no other member carries that key. */
  lemma GetField(head: seq<Member>, fields: seq<Member>, i: nat)
    requires i < |fields|
    requires forall m :: m in head ==> m.key != fields[i].key
    requires forall j :: 0 <= j < |fields| && j != i ==> fields[j].key != fields[i].key
    ensures Get(JObject(head + fields), fields[i].key) == Some(fields[i].value)
  {
    var ms := head + fields;
    assert ms[|head| + i] == fields[i];
    forall m | m in ms && m.key == fields[i].key ensures m.value == fields[i].value {
      if m !in head {
        var j :| 0 <= j < |fields| && fields[j] == m;
      }
    }
    GetMember(ms, fields[i].key, fields[i].value);
  }

  /** Members before the first one with the key do not affect a lookup. */
  lemma {:induction false} GetAfter(a: seq<Member>, b: seq<Member>, k: string)
    requires forall m :: m in a ==> m.key != k
    ensures Get(JObject(a + b), k) == Get(JObject(b), k)
  {
    if |a| > 0 {
      assert a[0] in a;
      assert (a + b)[1..] == a[1..] + b;
      assert forall m :: m in a[1..] ==> m in a;
      GetAfter(a[1..], b, k);
    } else {
      assert a + b == b;
    }
  }

  /** A key no member carries is not found. */
  lemma GetAbsent(ms: seq<Member>, k: string)
    requires forall m :: m in ms ==> m.key != k
    ensures Get(JObject(ms), k) == None
  {
    LookupSpec(ms, k);
  }

  /** The string of a JSON string item (`cJSON_IsString`), else None. */
  function StringOf(o: Option<Json>): (r: Option<string>)
    ensures r.Some? <==> o.Some? && o.value.JString?
  {
    if o.Some? && o.value.JString? then Some(o.value.s) else None
  }

  /** `dm_str_copy(dst, n, cJSON_GetStringValue(item))`: the item's string,
      or the empty string when it is absent or no string. */
  function StringOrEmpty(o: Option<Json>): (r: string)
    ensures o.Some? && o.value.JString? ==> r == o.value.s
    ensures !(o.Some? && o.value.JString?) ==> r == ""
  {
    if o.Some? && o.value.JString? then o.value.s else ""
  }

  /** A string field that is copied only when the item is a string; `def` is
      the value left in place otherwise. */
  function StringOr(o: Option<Json>, def: string): (r: string)
    ensures r == (if o.Some? && o.value.JString? then o.value.s else def)
  {
    match StringOf(o)
    case Some(s) => s
    case None => def
  }

  /** `json_number_to_u32`: a missing, non-number or negative item gives the
      default; larger values saturate at UINT32_MAX; otherwise the integer
      part. */
  function NumberToU32(o: Option<Json>, def: nat): (r: nat)
    requires def <= UINT32_MAX
    ensures r <= UINT32_MAX
    ensures !(o.Some? && o.value.JNumber?) || o.value.n < 0.0 ==> r == def
    ensures o.Some? && o.value.JNumber? && o.value.n > UINT32_MAX as real ==> r == UINT32_MAX
    ensures o.Some? && o.value.JNumber? && 0.0 <= o.value.n <= UINT32_MAX as real ==>
      r as real <= o.value.n < r as real + 1.0
  {
    if !(o.Some? && o.value.JNumber?) || o.value.n < 0.0 then def
    else if o.value.n > UINT32_MAX as real then UINT32_MAX
    else o.value.n.Floor
  }

  /** `json_number_to_u16`, the same with UINT16_MAX. */
  function NumberToU16(o: Option<Json>, def: nat): (r: nat)
    requires def <= UINT16_MAX
    ensures r <= UINT16_MAX
    ensures !(o.Some? && o.value.JNumber?) || o.value.n < 0.0 ==> r == def
    ensures o.Some? && o.value.JNumber? && o.value.n > UINT16_MAX as real ==> r == UINT16_MAX
    ensures o.Some? && o.value.JNumber? && 0.0 <= o.value.n <= UINT16_MAX as real ==>
      r as real <= o.value.n < r as real + 1.0
  {
    if !(o.Some? && o.value.JNumber?) || o.value.n < 0.0 then def
    else if o.value.n > UINT16_MAX as real then UINT16_MAX
    else o.value.n.Floor
  }

  /** A number written from an integer in range is read back unchanged. */
  lemma NumberRoundTrip(v: nat, def32: nat, def16: nat)
    requires def32 <= UINT32_MAX && def16 <= UINT16_MAX
    ensures v <= UINT32_MAX ==> NumberToU32(Some(JNumber(v as real)), def32) == v
    ensures v <= UINT16_MAX ==> NumberToU16(Some(JNumber(v as real)), def16) == v
  {
  }

  /** `json_get_bool_default`: the default unless the item is a JSON bool. */
  function BoolOr(o: Option<Json>, def: bool): (r: bool)
    ensures o.Some? && o.value.JBool? ==> r == o.value.b
    ensures !(o.Some? && o.value.JBool?) ==> r == def
  {
    if o.Some? && o.value.JBool? then o.value.b else def
  }

  /** The items of an array item (`cJSON_IsArray`), else None. */
  function ArrayOf(o: Option<Json>): (r: Option<seq<Json>>)
    ensures r.Some? <==> o.Some? && o.value.JArray?
    ensures r.Some? ==> r.value == o.value.items
  {
    if o.Some? && o.value.JArray? then Some(o.value.items) else None
  }

  /** `cJSON_ArrayForEach` with a capped counter and `continue` on rejected
      items: the accepted items, in order, until `cap` are taken. */
  function Collect<T>(items: seq<Json>, cap: nat, f: Json -> Option<T>): (r: seq<T>)
    ensures |r| <= cap && |r| <= |items|
    ensures forall x :: x in r ==> exists i :: 0 <= i < |items| && f(items[i]) == Some(x)
  {
    if |items| == 0 || cap == 0 then []
    else match f(items[0])
      case Some(x) =>
        var rest := Collect(items[1..], cap - 1, f);
        assert forall y :: y in rest ==> exists i :: 0 <= i < |items| && f(items[i]) == Some(y) by {
          forall y | y in rest ensures exists i :: 0 <= i < |items| && f(items[i]) == Some(y) {
            var i :| 0 <= i < |items[1..]| && f(items[1..][i]) == Some(y);
            assert f(items[i + 1]) == Some(y);
          }
        }
        [x] + rest
      case None =>
        var rest := Collect(items[1..], cap, f);
        assert forall y :: y in rest ==> exists i :: 0 <= i < |items| && f(items[i]) == Some(y) by {
          forall y | y in rest ensures exists i :: 0 <= i < |items| && f(items[i]) == Some(y) {
            var i :| 0 <= i < |items[1..]| && f(items[1..][i]) == Some(y);
            assert f(items[i + 1]) == Some(y);
          }
        }
        rest
  }

  /** When no item is rejected and there are at most `cap` of them, every
      item is taken, in order. */
  lemma {:induction false} CollectAll<T>(items: seq<Json>, cap: nat, f: Json -> Option<T>, xs: seq<T>)
    requires |items| == |xs| <= cap
    requires forall i :: 0 <= i < |items| ==> f(items[i]) == Some(xs[i])
    ensures Collect(items, cap, f) == xs
  {
    if |items| > 0 {
      CollectAll(items[1..], cap - 1, f, xs[1..]);
      assert xs == [xs[0]] + xs[1..];
    }
  }

  /** The loop form of `Collect`, over an index and a counter as the C loops
      run it. */
  method CollectLoop<T>(items: seq<Json>, cap: nat, f: Json -> Option<T>) returns (out: seq<T>)
    ensures out == Collect(items, cap, f)
  {
    out := [];
    var i := 0;
    while i < |items|
      invariant 0 <= i <= |items| && |out| <= cap
      invariant out + Collect(items[i..], cap - |out|, f) == Collect(items, cap, f)
    {
      if |out| >= cap {
        break;
      }
      assert items[i..][1..] == items[i + 1..];
      match f(items[i]) {
        case Some(x) =>
          assert out + [x] + Collect(items[i + 1..], cap - |out| - 1, f) == out + Collect(items[i..], cap - |out|, f);
          out := out + [x];
        case None =>
      }
      i := i + 1;
    }
    assert Collect(items[i..], cap - |out|, f) == [];
  }

  // ------------------------------------------------- building objects

  /** The members of an object written key by key: `keys[i]` with
      `vals[i]` when it is present, nothing when it is absent. */
  function Fields(keys: seq<string>, vals: seq<Option<Json>>): (r: seq<Member>)
    requires |keys| == |vals|
  {
    if |keys| == 0 then []
    else (if vals[0].Some? then [Member(keys[0], vals[0].value)] else []) + Fields(keys[1..], vals[1..])
  }

  /** Every member written comes with one of the keys. */
  lemma {:induction false} FieldsKeys(keys: seq<string>, vals: seq<Option<Json>>, m: Member)
    requires |keys| == |vals| && m in Fields(keys, vals)
    ensures exists j :: 0 <= j < |keys| && m.key == keys[j]
  {
    if !(vals[0].Some? && m == Member(keys[0], vals[0].value)) {
      FieldsKeys(keys[1..], vals[1..], m);
      var j :| 0 <= j < |keys[1..]| && m.key == keys[1..][j];
      assert m.key == keys[j + 1];
    }
  }

  predicate Distinct(keys: seq<string>) {
    forall i, j :: 0 <= i < j < |keys| ==> keys[i] != keys[j]
  }

  /** Looking up one of the keys of an object written key by key finds
      its value, or nothing when the value was left out. */
  lemma {:induction false} GetFields(keys: seq<string>, vals: seq<Option<Json>>, i: nat)
    requires |keys| == |vals| && Distinct(keys) && i < |keys|
    ensures Get(JObject(Fields(keys, vals)), keys[i]) == vals[i]
  {
    var head := if vals[0].Some? then [Member(keys[0], vals[0].value)] else [];
    var rest := Fields(keys[1..], vals[1..]);
    if i == 0 {
      forall m | m in rest ensures m.key != keys[0] {
        FieldsKeys(keys[1..], vals[1..], m);
        var j :| 0 <= j < |keys[1..]| && m.key == keys[1..][j];
        assert m.key == keys[j + 1];
      }
      if vals[0].Some? {
        GetFirst(keys[0], vals[0].value, rest);
      } else {
        assert head + rest == rest;
        GetAbsent(rest, keys[0]);
      }
    } else {
      GetAfter(head, rest, keys[i]);
      assert Distinct(keys[1..]) by {
        forall a, b | 0 <= a < b < |keys[1..]| ensures keys[1..][a] != keys[1..][b] {
          assert keys[1..][a] == keys[a + 1] && keys[1..][b] == keys[b + 1];
        }
      }
      GetFields(keys[1..], vals[1..], i - 1);
    }
  }

  /** The item loops of the exporter (`for (i = 0; i < count && i < cap;
      ++i) { if (!keep) continue; ... }`): the images of the kept items
      among the first `cap`, in order. */
  function Emit<T>(xs: seq<T>, cap: nat, keep: T -> bool, f: T -> Json): (r: seq<Json>)
    ensures |r| <= |xs| && |r| <= cap
  {
    if |xs| == 0 || cap == 0 then []
    else (if keep(xs[0]) then [f(xs[0])] else []) + Emit(xs[1..], cap - 1, keep, f)
  }

  /** Every emitted item is the image of a kept item among the first
      `cap`. */
  lemma {:induction false} EmitKept<T>(xs: seq<T>, cap: nat, keep: T -> bool, f: T -> Json, y: Json)
    requires y in Emit(xs, cap, keep, f)
    ensures exists i :: 0 <= i < |xs| && i < cap && keep(xs[i]) && y == f(xs[i])
  {
    var head := if keep(xs[0]) then [f(xs[0])] else [];
    if y !in head {
      EmitKept(xs[1..], cap - 1, keep, f, y);
      var i :| 0 <= i < |xs[1..]| && i < cap - 1 && keep(xs[1..][i]) && y == f(xs[1..][i]);
      assert xs[1..][i] == xs[i + 1];
    }
  }

  /** When every item is kept and they all fit, every item is emitted, in
      order. */
  lemma {:induction false} EmitAll<T>(xs: seq<T>, cap: nat, keep: T -> bool, f: T -> Json)
    requires |xs| <= cap && forall i :: 0 <= i < |xs| ==> keep(xs[i])
    ensures |Emit(xs, cap, keep, f)| == |xs|
    ensures forall i :: 0 <= i < |xs| ==> Emit(xs, cap, keep, f)[i] == f(xs[i])
  {
    if |xs| > 0 {
      EmitAll(xs[1..], cap - 1, keep, f);
      assert keep(xs[0]);
    }
  }

  /** A loop that writes one item per element of the first `cap` and gives
      up as soon as one element cannot be written. */
  function Traverse<T>(xs: seq<T>, cap: nat, f: T -> Option<Json>): (r: Option<seq<Json>>)
    ensures r.Some? ==> |r.value| == Min(|xs|, cap)
  {
    if |xs| == 0 || cap == 0 then Some([])
    else
      match f(xs[0])
      case None => None
      case Some(y) =>
        match Traverse(xs[1..], cap - 1, f)
        case None => None
        case Some(rest) => Some([y] + rest)
  }

  /** The loop gives up exactly when an element it reaches cannot be
      written. */
  lemma {:induction false} TraverseFails<T>(xs: seq<T>, cap: nat, f: T -> Option<Json>)
    ensures Traverse(xs, cap, f).None? <==> exists i :: 0 <= i < |xs| && i < cap && f(xs[i]).None?
    decreases |xs|
  {
    if |xs| > 0 && cap > 0 {
      TraverseFails(xs[1..], cap - 1, f);
      if exists i :: 0 <= i < |xs[1..]| && i < cap - 1 && f(xs[1..][i]).None? {
        var i :| 0 <= i < |xs[1..]| && i < cap - 1 && f(xs[1..][i]).None?;
        assert xs[1..][i] == xs[i + 1];
      }
      if exists i :: 0 <= i < |xs| && i < cap && f(xs[i]).None? {
        var i :| 0 <= i < |xs| && i < cap && f(xs[i]).None?;
        if i > 0 {
          assert xs[1..][i - 1] == xs[i];
        }
      }
    }
  }

  /** When every element can be written and all fit, the items are the
      elements' images, in order. */
  lemma {:induction false} TraverseAll<T>(xs: seq<T>, cap: nat, f: T -> Option<Json>)
    requires |xs| <= cap && forall i :: 0 <= i < |xs| ==> f(xs[i]).Some?
    ensures Traverse(xs, cap, f).Some?
    ensures forall i :: 0 <= i < |xs| ==> Traverse(xs, cap, f).value[i] == f(xs[i]).value
    decreases |xs|
  {
    if |xs| > 0 {
      assert f(xs[0]).Some?;
      assert forall i :: 0 <= i < |xs[1..]| ==> f(xs[1..][i]).Some? by {
        forall i | 0 <= i < |xs[1..]| ensures f(xs[1..][i]).Some? {
          assert xs[1..][i] == xs[i + 1];
        }
      }
      TraverseAll(xs[1..], cap - 1, f);
      forall i | 0 <= i < |xs| ensures Traverse(xs, cap, f).value[i] == f(xs[i]).value {
        if i > 0 {
          assert xs[1..][i - 1] == xs[i];
        }
      }
    }
  }

  /** Every element: a loop that skips nothing. */
  predicate Always<T>(x: T) { true }

  /** Reading back a written list: when `g` reads back every image under
      `f` and the list fits the cap, collecting the written items gives
      the list again. */
  lemma EmitCollect<T>(xs: seq<T>, cap: nat, f: T -> Json, g: Json -> Option<T>)
    requires |xs| <= cap && forall i :: 0 <= i < |xs| ==> g(f(xs[i])) == Some(xs[i])
    ensures Collect(Emit(xs, cap, Always, f), cap, g) == xs
  {
    var items := Emit(xs, cap, Always, f);
    EmitAll(xs, cap, Always, f);
    CollectAll(items, cap, g, xs);
  }
}
