/** `getNestedObjectValue` and `setNestedObjectValue` of src/utils/Utils.ts:
    reading and writing a value at a dotted path in a JSON-like document. */
module Nested {
  import opened Wrappers
  import opened Json
  import opened Paths

  /** `key in cur ? cur[key] : undefined` for an object or array `cur`, and
      `undefined` for every other value (the getter refuses to index
      anything whose `typeof` is not "object"). An array has its canonical
      indices below its length, and `length`. */
  function Child(cur: Value, key: string): (r: Option<Value>)
    ensures r.Some? ==> cur.Obj? || cur.Arr?
    ensures cur.Obj? ==> (r.Some? <==> key in cur.fields)
  {
    match cur
    case Obj(m) => if key in m then Some(m[key]) else None
    case Arr(items) =>
      if key == "length" then Some(Num(|items|))
      else
        (match ParseIndex(key)
         case Some(i) => if i < |items| then Some(items[i]) else None
         case None => None)
    case _ => None
  }

  /** Sequential key lookup from `cur`, `undefined` as soon as a step fails. */
  function Walk(cur: Value, keys: seq<string>): (r: Option<Value>)
    ensures |keys| > 0 && r.Some? ==> Child(cur, keys[0]).Some? && (cur.Obj? || cur.Arr?)
    decreases |keys|
  {
    if |keys| == 0 then Some(cur)
    else
      match Child(cur, keys[0])
      case None => None
      case Some(next) => Walk(next, keys[1..])
  }

  /** `getNestedObjectValue(obj, path)`; `root == None` is `undefined`. */
  function Get(root: Option<Value>, path: string): (r: Option<Value>)
    ensures root.None? || root == Some(Null) ==> r.None?
    ensures Segments(path).None? ==> r.None?
    ensures root.Some? && root != Some(Null) && Segments(path).Some? ==>
      r == Walk(root.value, Segments(path).value)
  {
    if root.None? || root == Some(Null) then None
    else
      match Segments(path)
      case None => None
      case Some(keys) => Walk(root.value, keys)
  }

  /** The object a walk should descend into when writing below `key`: the
      existing object there, or a fresh `{}` in place of a missing key, a
      `null`, a scalar or an array. */
  function ChildObject(m: map<string, Value>, key: string): (r: map<string, Value>)
    ensures r == map[] || (key in m && m[key] == Obj(r))
    ensures key in m && m[key].Obj? ==> m[key] == Obj(r)
  {
    if key in m && m[key].Obj? then m[key].fields else map[]
  }

  /** The `reduce` over the intermediate keys of `setNestedObjectValue`
      followed by the final assignment, as a pure update of the root. */
  function SetPath(m: map<string, Value>, keys: seq<string>, v: Value): (r: map<string, Value>)
    requires |keys| > 0
    ensures r.Keys == m.Keys + {keys[0]}
    ensures forall k :: k in m && k != keys[0] ==> r[k] == m[k]
    decreases |keys|
  {
    var k := keys[0];
    if |keys| == 1 then m[k := v]
    else m[k := Obj(SetPath(ChildObject(m, k), keys[1..], v))]
  }

  /** `setNestedObjectValue(obj, path, value)` on an object root, returning
      the updated root; a rejected path leaves the root as it was. */
  function Set(root: map<string, Value>, path: string, v: Value): (r: map<string, Value>)
    ensures Segments(path).None? ==> r == root
    ensures Segments(path).Some? ==> r.Keys == root.Keys + {Segments(path).value[0]}
  {
    match Segments(path)
    case None => root
    case Some(keys) => SetPath(root, keys, v)
  }

  // ---------------------------------------------------------------------------
  // Reading

  /** A walk along `a + b` is a walk along `a` followed by a walk along `b`. */
  lemma {:induction false} WalkConcat(cur: Value, a: seq<string>, b: seq<string>)
    ensures Walk(cur, a + b) ==
      match Walk(cur, a)
      case None => None
      case Some(x) => Walk(x, b)
    decreases |a|
  {
    if |a| == 0 {
      assert a + b == b;
    } else {
      assert (a + b)[0] == a[0];
      assert (a + b)[1..] == a[1..] + b;
      match Child(cur, a[0])
      case None =>
      case Some(next) => WalkConcat(next, a[1..], b);
    }
  }

  /** The getter gives up as soon as it meets a key missing from an object
      or array, or a value that is neither (`null`, a boolean, a number or a
      string) with keys still to follow. */
  lemma WalkStops(cur: Value, keys: seq<string>, i: nat)
    requires i < |keys|
    requires Walk(cur, keys[..i]).Some?
    requires var w := Walk(cur, keys[..i]).value;
      Child(w, keys[i]).None? || (!w.Obj? && !w.Arr?)
    ensures Walk(cur, keys) == None
  {
    WalkConcat(cur, keys[..i], keys[i..]);
    assert keys[..i] + keys[i..] == keys;
  }

  /** Every case in which `getNestedObjectValue` answers `undefined` before
      walking: a `null` or `undefined` root, the empty path, `.` and `..`,
      a path containing `..`, a path that is blank once trimmed, and one
      made only of dots. */
  lemma GetRejects(root: Option<Value>, path: string)
    requires
      || root.None? || root == Some(Null)
      || path == "" || path == "." || path == ".." || HasDoubleDot(path)
      || Trim(path) == "" || AllDots(Trim(path))
    ensures Get(root, path) == None
  {
    SegmentsNoneIff(path);
  }

  /** On a root that is neither `null` nor `undefined`, a path padded with
      whitespace, framed by at most one dot on each side, and spelling the
      keys joined by dots reads exactly the walk along those keys. */
  lemma GetOfSpelling(root: Option<Value>, path: string, keys: seq<string>, lead: string, d1: string, d2: string, trail: string)
    requires root.Some? && root != Some(Null)
    requires SpelledAs(path, keys, lead, d1, d2, trail)
    ensures Get(root, path) == Walk(root.value, keys)
  {
    SegmentsOfSpelling(path, keys, lead, d1, d2, trail);
  }

  // ---------------------------------------------------------------------------
  // Writing

  /** Reading back below a written path reads inside the written value; in
      particular the value written is the value read. */
  lemma {:induction false} WalkAfterSetPath(m: map<string, Value>, keys: seq<string>, v: Value, rest: seq<string>)
    requires |keys| > 0
    ensures Walk(Obj(SetPath(m, keys, v)), keys + rest) == Walk(v, rest)
    decreases |keys|
  {
    var k := keys[0];
    assert (keys + rest)[0] == k;
    assert (keys + rest)[1..] == keys[1..] + rest;
    if |keys| > 1 {
      WalkAfterSetPath(ChildObject(m, k), keys[1..], v, rest);
    }
  }

  /** Round trip: on an accepted path, `get(set(o, p, v), p) == v`. */
  lemma GetAfterSet(root: map<string, Value>, path: string, v: Value)
    requires Segments(path).Some?
    ensures Get(Some(Obj(Set(root, path, v))), path) == Some(v)
  {
    var keys := Segments(path).value;
    WalkAfterSetPath(root, keys, v, []);
    assert keys + [] == keys;
  }

  /** Every key of `keys` leads from an object to an object. */
  ghost predicate ObjectsAlong(m: map<string, Value>, keys: seq<string>)
    decreases |keys|
  {
    |keys| == 0 || (keys[0] in m && m[keys[0]].Obj? && ObjectsAlong(m[keys[0]].fields, keys[1..]))
  }

  /** `p` and `q` agree on their first `d` keys and differ on key `d`. */
  ghost predicate DivergeAt(p: seq<string>, q: seq<string>, d: nat) {
    d < |p| && d < |q| && p[..d] == q[..d] && p[d] != q[d]
  }

  /** Frame: a path that leaves the written path at an existing object is
      read as before the write: sibling keys of every existing object on the
      way keep their values. */
  lemma {:induction false} SetPathFrame(m: map<string, Value>, p: seq<string>, v: Value, q: seq<string>, d: nat)
    requires DivergeAt(p, q, d)
    requires ObjectsAlong(m, p[..d])
    ensures Walk(Obj(SetPath(m, p, v)), q) == Walk(Obj(m), q)
    decreases d
  {
    if d > 0 {
      var k := p[0];
      assert q[0] == p[..d][0] == k;
      assert p[..d][1..] == p[1..][..d - 1];
      assert p[1..][..d - 1] == q[1..][..d - 1];
      SetPathFrame(m[k].fields, p[1..], v, q[1..], d - 1);
    }
  }

  /** A path that leaves the written path inside freshly created structure
      reads `undefined`. */
  lemma {:induction false} FreshFrame(p: seq<string>, v: Value, q: seq<string>, d: nat)
    requires DivergeAt(p, q, d)
    ensures Walk(Obj(SetPath(map[], p, v)), q) == None
    decreases d
  {
    if d > 0 {
      assert q[0] == p[..d][0] == p[0];
      assert p[1..][..d - 1] == q[1..][..d - 1];
      FreshFrame(p[1..], v, q[1..], d - 1);
    }
  }

  /** Destructive repair: where the written path runs through a missing key, a
      `null`, a scalar or an array, that value is replaced by a fresh object,
      so every other path through it now reads `undefined`. */
  lemma {:induction false} SetPathReplaces(m: map<string, Value>, p: seq<string>, v: Value, q: seq<string>, d: nat)
    requires DivergeAt(p, q, d)
    requires !ObjectsAlong(m, p[..d])
    ensures Walk(Obj(SetPath(m, p, v)), q) == None
    decreases d
  {
    var k := p[0];
    assert d > 0;
    assert q[0] == p[..d][0] == k;
    assert p[..d][1..] == p[1..][..d - 1];
    assert p[1..][..d - 1] == q[1..][..d - 1];
    if k in m && m[k].Obj? {
      SetPathReplaces(m[k].fields, p[1..], v, q[1..], d - 1);
    } else {
      FreshFrame(p[1..], v, q[1..], d - 1);
    }
  }

  /** The written value sits at the end of `p`, reached through objects only. */
  ghost predicate At(m: map<string, Value>, p: seq<string>, w: Value)
    decreases |p|
  {
    && |p| > 0
    && p[0] in m
    && (if |p| == 1 then m[p[0]] == w
        else m[p[0]].Obj? && At(m[p[0]].fields, p[1..], w))
  }

  /** One of the paths is a prefix of the other. */
  predicate Comparable(p: seq<string>, q: seq<string>) {
    p <= q || q <= p
  }

  lemma {:induction false} AtWalk(m: map<string, Value>, p: seq<string>, w: Value)
    requires At(m, p, w)
    ensures Walk(Obj(m), p) == Some(w)
    decreases |p|
  {
    if |p| > 1 {
      AtWalk(m[p[0]].fields, p[1..], w);
    }
  }

  lemma {:induction false} SetPathAt(m: map<string, Value>, p: seq<string>, v: Value)
    requires |p| > 0
    ensures At(SetPath(m, p, v), p, v)
    decreases |p|
  {
    if |p| > 1 {
      SetPathAt(ChildObject(m, p[0]), p[1..], v);
    }
  }

  /** A later write to a path unrelated to `p` (neither is a prefix of the
      other) keeps what was written at `p`. */
  lemma {:induction false} AtPreserved(m: map<string, Value>, p: seq<string>, w: Value, q: seq<string>, v: Value)
    requires At(m, p, w)
    requires |q| > 0 && !Comparable(p, q)
    ensures At(SetPath(m, q, v), p, w)
    decreases |p|
  {
    if p[0] == q[0] && |p| > 1 && |q| > 1 {
      AtPreserved(m[p[0]].fields, p[1..], w, q[1..], v);
    }
  }

  /** `set({a: 5}, "a.b", 1)` gives `{a: {b: 1}}`: the scalar in the way is
      replaced by an object. */
  lemma SetOverwritesScalar()
    ensures Set(map["a" := Num(5)], "a.b", Num(1)) == map["a" := Obj(map["b" := Num(1)])]
  {
    var keys := ["a", "b"];
    assert Join(keys) == "a.b" by {
      assert Join(keys[1..]) == "b";
    }
    assert SpelledAs("a.b", keys, "", "", "", "") by {
      assert "a.b" == "" + "" + "a.b" + "" + "";
    }
    SegmentsOfSpelling("a.b", keys, "", "", "", "");
    SetPathOverScalar();
  }

  lemma SetPathOverScalar()
    ensures SetPath(map["a" := Num(5)], ["a", "b"], Num(1)) == map["a" := Obj(map["b" := Num(1)])]
  {
    var root := map["a" := Num(5)];
    assert ChildObject(root, "a") == map[];
    assert ["a", "b"][1..] == ["b"];
    assert SetPath(map[], ["b"], Num(1)) == map["b" := Num(1)];
  }
}
