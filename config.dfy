/** `Config`: an options array read with keys that may name a nested entry
    in dotted form ("db.host"). */
module ConfigStore {
  import opened PhpStrings

  /** A PHP value as the lookups see it: null, a scalar (kept as its
      text), or an array with string keys. */
  datatype Value = Null | Leaf(text: string) | Map(entries: map<string, Value>)

  // ---------------------------------------------------------------------
  // The lookups, as functions

  /** Follows the segments one by one from `v`; a missing segment or a
      value that is not an array on the way gives `d`. */
  function Follow(v: Value, segs: seq<string>, d: Value): Value
    decreases |segs|
  {
    if segs == [] then v
    else if v.Map? && segs[0] in v.entries then Follow(v.entries[segs[0]], segs[1..], d)
    else d
  }

  /** The segments can all be followed from `v`. */
  predicate Reaches(v: Value, segs: seq<string>)
    decreases |segs|
  {
    segs == [] || (v.Map? && segs[0] in v.entries && Reaches(v.entries[segs[0]], segs[1..]))
  }

  /** `arrayGet($array, $key, $default)`. */
  function Lookup(a: map<string, Value>, key: string, d: Value): Value {
    if key == "" then Map(a)
    else if key in a then a[key]
    else if '.' !in key then d
    else Follow(Map(a), Explode('.', key), d)
  }

  /** `arrayHas($array, $key)`. */
  predicate Contains(a: map<string, Value>, key: string) {
    if key == "" then false
    else if key in a then true
    else if '.' !in key then false
    else Reaches(Map(a), Explode('.', key))
  }

  // ---------------------------------------------------------------------
  // The class

  class Config {
    var opts: map<string, Value>

    /** `new Config($opts)`. */
    constructor (opts: map<string, Value>)
      ensures All() == opts && GetOpts() == opts
    {
      this.opts := opts;
    }

    /** `setOpts($opts)`: the array is replaced as a whole. */
    method SetOpts(opts: map<string, Value>)
      modifies this
      ensures All() == opts && GetOpts() == opts
    {
      this.opts := opts;
    }

    /** `all()`. */
    function All(): map<string, Value>
      reads this
    {
      opts
    }

    /** `getOpts()`: `$this->opts` is always an array (the constructor and
        `setOpts` only take arrays), so the fallback that collects known
        properties is never reached. */
    function GetOpts(): map<string, Value>
      reads this
    {
      opts
    }

    /** `get($key, $default)`. */
    method Get(key: string, d: Value) returns (r: Value)
      ensures r == Lookup(opts, key, d)
    {
      r := ArrayGet(opts, key, d);
    }

    /** `has($key)`. */
    method Has(key: string) returns (b: bool)
      ensures b == Contains(opts, key)
    {
      b := ArrayHas(opts, key);
    }
  }

  /** `arrayGet`: the segment loop reassigning `$array`. */
  method ArrayGet(arr: map<string, Value>, key: string, d: Value) returns (r: Value)
    ensures r == Lookup(arr, key, d)
  {
    if key == "" {
      return Map(arr);
    }
    if key in arr {
      return arr[key];
    }
    if '.' !in key {
      return d;
    }
    var segments := Explode('.', key);
    var cur := Map(arr);
    var i := 0;
    while i < |segments|
      invariant 0 <= i <= |segments|
      invariant Follow(Map(arr), segments, d) == Follow(cur, segments[i..], d)
    {
      if !cur.Map? || segments[i] !in cur.entries {
        return d;
      }
      cur := cur.entries[segments[i]];
      i := i + 1;
    }
    r := cur;
  }

  /** `arrayHas`: the same loop, answering whether it got to the end. */
  method ArrayHas(arr: map<string, Value>, key: string) returns (b: bool)
    ensures b == Contains(arr, key)
  {
    if key == "" {
      return false;
    }
    if key in arr {
      return true;
    }
    if '.' !in key {
      return false;
    }
    var segments := Explode('.', key);
    var cur := Map(arr);
    var i := 0;
    while i < |segments|
      invariant 0 <= i <= |segments|
      invariant Reaches(Map(arr), segments) == Reaches(cur, segments[i..])
    {
      if !cur.Map? || segments[i] !in cur.entries {
        return false;
      }
      cur := cur.entries[segments[i]];
      i := i + 1;
    }
    b := true;
  }

  // ---------------------------------------------------------------------
  // Properties

  /** When the segments can be followed, the default plays no part;
      otherwise the default is the answer. */
  lemma {:induction false} FollowDefault(v: Value, segs: seq<string>, d: Value)
    ensures Reaches(v, segs) ==> forall d' :: Follow(v, segs, d') == Follow(v, segs, d)
    ensures !Reaches(v, segs) ==> Follow(v, segs, d) == d
    decreases |segs|
  {
    if segs != [] && v.Map? && segs[0] in v.entries {
      FollowDefault(v.entries[segs[0]], segs[1..], d);
    }
  }

  /** For a non-empty key, `has` tells whether `get` depends on its
      default: when the key is there the value is the same for every
      default, and when it is not the default is returned. */
  lemma LookupDefault(a: map<string, Value>, key: string, d: Value)
    requires key != ""
    ensures Contains(a, key) ==> forall d' :: Lookup(a, key, d') == Lookup(a, key, d)
    ensures !Contains(a, key) ==> Lookup(a, key, d) == d
  {
    if key !in a && '.' in key {
      FollowDefault(Map(a), Explode('.', key), d);
    }
  }

  /** The four cases of both lookups: the empty key (the whole array, and
      not "had"), a key present as it is (even with dots in it, even
      null), a missing key without a dot (the default, not "had"), and a
      dotted key (its segments followed). */
  lemma LookupCases(a: map<string, Value>, key: string, d: Value)
    ensures key == "" ==> Lookup(a, key, d) == Map(a) && !Contains(a, key)
    ensures key != "" && key in a ==> Lookup(a, key, d) == a[key] && Contains(a, key)
    ensures key !in a && '.' !in key ==> (key != "" ==> Lookup(a, key, d) == d) && !Contains(a, key)
    ensures key !in a && '.' in key ==>
              Lookup(a, key, d) == Follow(Map(a), Explode('.', key), d)
              && (Contains(a, key) <==> Reaches(Map(a), Explode('.', key)))
  {
  }

  /** A key made of two or more dot-free segments joined by dots, and not
      itself present, reads the nested entry the segments lead to. */
  lemma DottedKey(a: map<string, Value>, segs: seq<string>, d: Value)
    requires |segs| >= 2
    requires forall i :: 0 <= i < |segs| ==> '.' !in segs[i]
    requires Implode('.', segs) !in a
    ensures Lookup(a, Implode('.', segs), d) == Follow(Map(a), segs, d)
    ensures Contains(a, Implode('.', segs)) <==> Reaches(Map(a), segs)
  {
    ExplodeImplode('.', segs);
    assert Implode('.', segs) == segs[0] + ['.'] + Implode('.', segs[1..]);
    assert '.' in Implode('.', segs) by {
      assert Implode('.', segs)[|segs[0]|] == '.';
    }
  }

  /** "db.host" reads `opts["db"]["host"]` when no literal "db.host" key
      exists, and the literal key wins when it does, even holding null. */
  lemma NestedExample(host: Value, d: Value)
    ensures var nested := map["db" := Map(map["host" := host])];
            Lookup(nested, "db.host", d) == host && Contains(nested, "db.host")
    ensures var both := map["db" := Map(map["host" := host]), "db.host" := Null];
            Lookup(both, "db.host", d) == Null
    ensures Lookup(map["db" := Leaf("x")], "db.host", d) == d
  {
    DottedKey(map["db" := Map(map["host" := host])], ["db", "host"], d);
    DottedKey(map["db" := Leaf("x")], ["db", "host"], d);
    assert Implode('.', ["db", "host"]) == "db.host";
  }
}
