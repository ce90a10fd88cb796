/** Property paths into editor objects: the loop of `ensure(obj, path)`
    (wizard_04_helpers.js) and the dotted-field branch of `updateStepField`
    (wizard_04_helpers.js, devices_remote.js), which walk a path and create
    `{}` wherever a key is `undefined`. */
module JsPath {
  import opened JsValue

  /** `v[path[0]][path[1]]…`; `undefined` once a key is missing. */
  function GetPath(v: Value, path: seq<string>): Value
    decreases |path|
  {
    if path == [] then v else GetPath(Get(v, path[0]), path[1..])
  }

  /** The value the cursor moves to from `v` over `key`: a missing key has
      just been set to `{}`; on a primitive that write was dropped, so the
      cursor reads `undefined`. */
  function Child(v: Value, key: string): Value {
    if !IsObjectLike(v) then Undefined
    else if Get(v, key).Undefined? then EmptyObject
    else Get(v, key)
  }

  /** Walks `path` from `v` as the editors' loops do and applies `leaf` to
      the final cursor, writing every changed value back into its parent.
      Reading a property of `null`/`undefined` throws. A `{}` is created
      only after the last value that could throw, so a walk that throws has
      changed nothing. */
  function Walk(v: Value, path: seq<string>, leaf: Value -> Completion<Value>): Completion<Value>
    decreases |path|
  {
    if path == [] then leaf(v)
    else if Nullish(v) then Threw
    else
      match Walk(Child(v, path[0]), path[1..], leaf)
      case Threw => Threw
      case Done(c) => Done(Put(v, path[0], c))
  }

  /** The cursor left as it is: `ensure` only creates the path. */
  function Keep(c: Value): Completion<Value> { Done(c) }

  /** `ensure(obj, path)`, as the new value of `obj`. */
  function EnsurePath(v: Value, path: seq<string>): Completion<Value> {
    Walk(v, path, Keep)
  }

  /** `target[key] = x` on the final cursor of a dotted update. */
  function PutLeaf(c: Value, key: string, x: Value): Completion<Value> {
    if Nullish(c) then Threw else Done(Put(c, key, x))
  }

  /** The dotted branch of `updateStepField`: walk all keys but the last,
      then store `x` under the last one. */
  function SetPath(v: Value, parts: seq<string>, x: Value): Completion<Value>
    requires |parts| >= 1
  {
    Walk(v, parts[..|parts| - 1], c => PutLeaf(c, parts[|parts| - 1], x))
  }

  /** A path the walk can follow from `v`: every value met is an object or
      an array until a key is missing (from there on, the walk creates). */
  predicate Paved(v: Value, path: seq<string>)
    decreases |path|
  {
    IsObjectLike(v) && (path == [] || Get(v, path[0]).Undefined? || Paved(Get(v, path[0]), path[1..]))
  }

  // ----- the loop -----

  /** Writes the result of a walk back through the parents it passed, the
      innermost last. */
  function Rebuild(trail: seq<(Value, string)>, inner: Completion<Value>): Completion<Value>
    decreases |trail|
  {
    if trail == [] then inner
    else
      var last := trail[|trail| - 1];
      Rebuild(trail[..|trail| - 1], match inner case Threw => Threw case Done(c) => Done(Put(last.0, last.1, c)))
  }

  lemma {:induction false} RebuildThrew(trail: seq<(Value, string)>)
    ensures Rebuild(trail, Threw) == Threw
  {
    if trail != [] {
      RebuildThrew(trail[..|trail| - 1]);
    }
  }

  /** The loop of `ensure` and of `updateStepField`: descend key by key,
      creating `{}` for missing keys, apply `leaf`, then store each changed
      value back into its parent. */
  method WalkLoop(v: Value, path: seq<string>, leaf: Value -> Completion<Value>) returns (r: Completion<Value>)
    ensures r == Walk(v, path, leaf)
  {
    var cursor := v;
    var trail: seq<(Value, string)> := [];
    var i := 0;
    while i < |path|
      invariant 0 <= i <= |path| && |trail| == i
      invariant Rebuild(trail, Walk(cursor, path[i..], leaf)) == Walk(v, path, leaf)
    {
      if Nullish(cursor) {
        RebuildThrew(trail);
        return Threw;
      }
      var key := path[i];
      assert path[i..][1..] == path[i + 1..];
      trail := trail + [(cursor, key)];
      assert trail[..|trail| - 1] == trail[..i];
      cursor := Child(cursor, key);
      i := i + 1;
    }
    assert path[i..] == [];
    r := leaf(cursor);
    assert trail[..|trail|] == trail;
    var j := |trail|;
    while j > 0
      invariant 0 <= j <= |trail|
      invariant Rebuild(trail[..j], r) == Walk(v, path, leaf)
    {
      var parent := trail[j - 1];
      assert trail[..j][..j - 1] == trail[..j - 1];
      if r.Done? {
        r := Done(Put(parent.0, parent.1, r.value));
      }
      j := j - 1;
    }
  }

  /** `ensure(obj, path)`, run by its loop. */
  method Ensure(obj: Value, path: seq<string>) returns (r: Completion<Value>)
    ensures r == EnsurePath(obj, path)
  {
    r := WalkLoop(obj, path, Keep);
  }

  // ----- what the walks promise -----

  /** A walk never stores `undefined` into the parent. */
  lemma {:induction false} WalkDefined(v: Value, path: seq<string>)
    requires path != [] && Walk(v, path, Keep).Done?
    ensures !Walk(v, path, Keep).value.Undefined?
  {
  }

  /** `ensure` leaves an object alone when the whole path already exists as
      objects: existing values are never replaced. */
  lemma {:induction false} EnsureKeepsExisting(v: Value, path: seq<string>)
    requires IsObjectLike(v)
    requires forall i :: 0 < i <= |path| ==> IsObjectLike(GetPath(v, path[..i]))
    ensures EnsurePath(v, path) == Done(v)
    decreases |path|
  {
    if path != [] {
      var k := path[0];
      var c := Get(v, k);
      forall i | 0 < i <= |path[1..]| ensures IsObjectLike(GetPath(c, path[1..][..i])) {
        assert path[..i + 1][1..] == path[1..][..i];
        assert IsObjectLike(GetPath(v, path[..i + 1]));
      }
      assert path[..1] == [k];
      assert GetPath(v, path[..1]) == GetPath(c, []) == c;
      assert IsObjectLike(GetPath(v, path[..1]));
      EnsureKeepsExisting(c, path[1..]);
      assert Child(v, k) == c;
      match v
      case Obj(m) => assert m[k := c] == m;
      case Arr(items, m) => assert m[k := c] == m;
    }
  }

  /** `ensure` is idempotent: a second call on the result changes nothing. */
  lemma {:induction false} EnsureIdempotent(v: Value, path: seq<string>)
    requires EnsurePath(v, path).Done?
    ensures EnsurePath(EnsurePath(v, path).value, path) == EnsurePath(v, path)
    decreases |path|
  {
    if path != [] {
      var w := EnsurePath(v, path).value;
      var k := path[0];
      var child := Child(v, k);
      var c := EnsurePath(child, path[1..]).value;
      assert w == Put(v, k, c);
      if IsObjectLike(v) {
        if path[1..] != [] {
          WalkDefined(child, path[1..]);
        }
        assert Get(w, k) == c;
        assert Child(w, k) == c;
        EnsureIdempotent(child, path[1..]);
        match v
        case Obj(m) => assert m[k := c][k := c] == m[k := c];
        case Arr(items, m) => assert m[k := c][k := c] == m[k := c];
      } else {
        assert w == v;
      }
    }
  }

  /** On a paved path, `ensure` succeeds and leaves an object or array at
      every prefix of the path, so the caller may read through it. */
  lemma {:induction false} EnsureReaches(v: Value, path: seq<string>)
    requires Paved(v, path)
    ensures EnsurePath(v, path).Done?
    ensures forall i :: 0 <= i <= |path| ==> IsObjectLike(GetPath(EnsurePath(v, path).value, path[..i]))
    decreases |path|
  {
    if path == [] {
      assert path[..0] == [];
    } else {
      var k := path[0];
      var child := Child(v, k);
      if Get(v, k).Undefined? {
        PavedEmpty(path[1..]);
      }
      assert Paved(child, path[1..]);
      EnsureReaches(child, path[1..]);
      var c := EnsurePath(child, path[1..]).value;
      var w := Put(v, k, c);
      assert EnsurePath(v, path) == Done(w);
      forall i | 0 <= i <= |path| ensures IsObjectLike(GetPath(w, path[..i])) {
        if i > 0 {
          assert path[..i][1..] == path[1..][..i - 1];
          assert GetPath(w, path[..i]) == GetPath(c, path[1..][..i - 1]);
        }
      }
    }
  }

  lemma {:induction false} PavedEmpty(path: seq<string>)
    ensures Paved(EmptyObject, path)
    decreases |path|
  {
  }

  /** A dotted update changes nothing beside the path: at every level, a
      key other than the one the walk follows keeps its value. */
  lemma {:induction false} SetPathSiblings(v: Value, parts: seq<string>, x: Value)
    requires |parts| >= 1 && SetPath(v, parts, x).Done?
    ensures forall i, k :: 0 <= i < |parts| && k != parts[i] ==>
              Get(GetPath(SetPath(v, parts, x).value, parts[..i]), k) == Get(GetPath(v, parts[..i]), k)
    decreases |parts|
  {
    var w := SetPath(v, parts, x).value;
    var last := parts[|parts| - 1];
    if |parts| == 1 {
      assert w == Put(v, last, x);
      forall i, k | 0 <= i < |parts| && k != parts[i]
        ensures Get(GetPath(w, parts[..i]), k) == Get(GetPath(v, parts[..i]), k)
      {
        assert parts[..i] == [];
      }
    } else {
      var k0 := parts[0];
      var child := Child(v, k0);
      assert parts[..|parts| - 1][1..] == parts[1..][..|parts[1..]| - 1];
      assert parts[1..][|parts[1..]| - 1] == last;
      assert SetPath(v, parts, x) == match SetPath(child, parts[1..], x) case Threw => Threw case Done(c) => Done(Put(v, k0, c));
      var c := SetPath(child, parts[1..], x).value;
      assert w == Put(v, k0, c);
      SetPathSiblings(child, parts[1..], x);
      forall i, k | 0 <= i < |parts| && k != parts[i]
        ensures Get(GetPath(w, parts[..i]), k) == Get(GetPath(v, parts[..i]), k)
      {
        if i > 0 {
          assert parts[..i][1..] == parts[1..][..i - 1];
          assert parts[1..][i - 1] == parts[i];
          if IsObjectLike(v) {
            assert GetPath(w, parts[..i]) == GetPath(c, parts[1..][..i - 1]);
            assert Get(GetPath(c, parts[1..][..i - 1]), k) == Get(GetPath(child, parts[1..][..i - 1]), k);
            if Get(v, k0).Undefined? {
              NothingBelowUndefined(parts[1..][..i - 1], k);
              NothingBelowUndefined(parts[..i], k);
            }
          }
        }
      }
    }
  }

  /** Below a missing key or a fresh `{}` every read is `undefined`. */
  lemma {:induction false} NothingBelowUndefined(path: seq<string>, k: string)
    ensures Get(GetPath(EmptyObject, path), k) == Undefined
    ensures path != [] ==> Get(GetPath(Undefined, path[1..]), k) == Undefined
    ensures Get(GetPath(Undefined, path), k) == Undefined
    decreases |path|
  {
    if path != [] {
      NothingBelowUndefined(path[1..], k);
    }
  }

  /** Below `undefined` every path reads `undefined`. */
  lemma {:induction false} GetPathOfUndefined(path: seq<string>)
    ensures GetPath(Undefined, path) == Undefined
    decreases |path|
  {
    if path != [] {
      GetPathOfUndefined(path[1..]);
    }
  }

  /** `ensure` on a path whose parents are paved succeeds; the leaf keeps a
      defined value and becomes `{}` where it was `undefined`. */
  lemma {:induction false} EnsureLeaf(v: Value, path: seq<string>)
    requires path != [] && Paved(v, path[..|path| - 1])
    ensures EnsurePath(v, path).Done?
    ensures GetPath(EnsurePath(v, path).value, path)
              == if GetPath(v, path).Undefined? then EmptyObject else GetPath(v, path)
    decreases |path|
  {
    var k := path[0];
    var child := Child(v, k);
    assert IsObjectLike(v);
    if |path| == 1 {
      assert EnsurePath(child, []) == Done(child);
      assert EnsurePath(v, path) == Done(Put(v, k, child));
      GetPut(v, k, child);
    } else {
      assert path[..|path| - 1][1..] == path[1..][..|path[1..]| - 1];
      if Get(v, k).Undefined? {
        PavedEmpty(path[1..][..|path[1..]| - 1]);
        GetPathOfUndefined(path[2..]);
        GetPathOfUndefined(path[1..]);
      }
      EnsureLeaf(child, path[1..]);
      var c := EnsurePath(child, path[1..]).value;
      assert EnsurePath(v, path) == Done(Put(v, k, c));
      GetPut(v, k, c);
    }
  }

  /** On a paved path a dotted update succeeds and the leaf reads back as
      the stored value. */
  lemma {:induction false} SetPathReadBack(v: Value, parts: seq<string>, x: Value)
    requires |parts| >= 1 && Paved(v, parts[..|parts| - 1])
    ensures SetPath(v, parts, x).Done?
    ensures GetPath(SetPath(v, parts, x).value, parts) == x
    decreases |parts|
  {
    var last := parts[|parts| - 1];
    if |parts| == 1 {
      assert parts[..0] == [];
    } else {
      var k0 := parts[0];
      var child := Child(v, k0);
      assert parts[..|parts| - 1][1..] == parts[1..][..|parts[1..]| - 1];
      assert parts[1..][|parts[1..]| - 1] == last;
      if Get(v, k0).Undefined? {
        PavedEmpty(parts[1..][..|parts[1..]| - 1]);
      }
      SetPathReadBack(child, parts[1..], x);
      var c := SetPath(child, parts[1..], x).value;
      assert SetPath(v, parts, x) == Done(Put(v, k0, c));
    }
  }
}
