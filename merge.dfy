/** `deepMerge` of background.js: the merge that builds every stored
    configuration (defaults under the stored value, a patch over the current
    value, defaults under a pulled value). */
module ConfigMerge {
  import opened Wrappers
  import opened JsonValue

  /** What `deepMerge` is ever given as `base`: a configuration object, or, in
      its own recursion, a value whose `typeof` is "object" and that is not an
      array, that is an object or `null`. */
  predicate IsMergeBase(v: Json) {
    v.JObj? || v.JNull?
  }

  /** A patch that is merged at all: truthy with `typeof` "object". Arrays
      qualify; `null` is falsy. */
  predicate IsPatchObject(patch: Json) {
    patch.JObj? || patch.JArr?
  }

  /** `{ ...base }`. */
  function Spread(base: Json): map<string, Json>
    requires IsMergeBase(base)
  {
    if base.JObj? then base.fields else map[]
  }

  /** The test that sends one patch entry into the recursion: the patch value
      is a truthy non-array object, `base` is truthy, and `base[key]` has
      `typeof` "object" (an object or `null`, a missing key is `undefined`) and
      is not an array. */
  predicate MergesRecursively(base: Json, key: string, value: Json) {
    value.JObj? && base.JObj? && key in base.fields && IsMergeBase(base.fields[key])
  }

  /** The specification of `deepMerge(base, patch)`: `base` unchanged when the
      patch is not an object, otherwise `base`'s fields with every entry of
      the patch assigned over them. */
  function Merge(base: Json, patch: Json): (r: Json)
    requires IsMergeBase(base)
    ensures IsMergeBase(r)
    ensures !IsPatchObject(patch) ==> r == base
    ensures IsPatchObject(patch) ==> r.JObj? && r.fields.Keys == Spread(base).Keys + Entries(patch).Keys
    ensures IsPatchObject(patch) ==>
      forall k :: k in Spread(base) && k !in Entries(patch) ==> r.fields[k] == Spread(base)[k]
    ensures IsPatchObject(patch) ==>
      forall k :: k in Entries(patch) && !MergesRecursively(base, k, Entries(patch)[k]) ==> r.fields[k] == Entries(patch)[k]
    decreases patch, 0
  {
    if !IsPatchObject(patch) then base
    else
      var entries := Entries(patch);
      EntriesSmaller(patch);
      JObj(Spread(base) + map k | k in entries :: MergeEntry(base, k, entries[k]))
  }

  /** The value `out[key]` receives for one patch entry. */
  function MergeEntry(base: Json, key: string, value: Json): (r: Json)
    requires IsMergeBase(base)
    decreases value, 1
  {
    if MergesRecursively(base, key, value) then Merge(base.fields[key], value) else value
  }

  /** `out` after the entries listed in `done` have been assigned. */
  ghost function Assigned(base: Json, entries: map<string, Json>, done: set<string>): map<string, Json>
    requires IsMergeBase(base)
    requires done <= entries.Keys
  {
    Spread(base) + map k | k in done :: MergeEntry(base, k, entries[k])
  }

  lemma AssignOne(base: Json, entries: map<string, Json>, done: set<string>, key: string)
    requires IsMergeBase(base)
    requires done <= entries.Keys && key in entries && key !in done
    ensures Assigned(base, entries, done + {key})
         == Assigned(base, entries, done)[key := MergeEntry(base, key, entries[key])]
  {
  }

  /** The merge loop of background.js: copy `base`, then assign the patch's
      entries one at a time, recursing where both sides are objects. */
  method DeepMerge(base: Json, patch: Json) returns (r: Json)
    requires IsMergeBase(base)
    ensures r == Merge(base, patch)
    decreases patch
  {
    if !IsPatchObject(patch) {
      return base;
    }
    var out := Spread(base);
    var entries := Entries(patch);
    EntriesSmaller(patch);
    var todo := entries.Keys;
    assert entries.Keys - todo == {};
    while todo != {}
      invariant todo <= entries.Keys
      invariant out == Assigned(base, entries, entries.Keys - todo)
      decreases todo
    {
      var key :| key in todo;
      var value := entries[key];
      AssignOne(base, entries, entries.Keys - todo, key);
      assert (entries.Keys - todo) + {key} == entries.Keys - (todo - {key});
      if MergesRecursively(base, key, value) {
        var sub := DeepMerge(base.fields[key], value);
        out := out[key := sub];
      } else {
        out := out[key := value];
      }
      todo := todo - {key};
    }
    assert entries.Keys - todo == entries.Keys;
    r := JObj(out);
  }

  /** The value the merge holds under one of the patch's keys. */
  lemma MergeAt(base: Json, patch: Json, k: string)
    requires IsMergeBase(base) && IsPatchObject(patch) && k in Entries(patch)
    ensures Merge(base, patch).fields[k] == MergeEntry(base, k, Entries(patch)[k])
  {
    var entries := Entries(patch);
    var m := map k | k in entries :: MergeEntry(base, k, entries[k]);
    MergeFields(base, patch);
    UnionRight(Spread(base), m, k);
  }

  lemma MergeFields(base: Json, patch: Json)
    requires IsMergeBase(base) && IsPatchObject(patch)
    ensures Merge(base, patch).fields == Spread(base) + map k | k in Entries(patch) :: MergeEntry(base, k, Entries(patch)[k])
  {
    EntriesSmaller(patch);
  }

  lemma UnionRight(a: map<string, Json>, b: map<string, Json>, k: string)
    requires k in b
    ensures (a + b)[k] == b[k]
  {
  }

  /** The value found by following the object keys in `path` from `v`. */
  function Lookup(v: Json, path: seq<string>): Option<Json> {
    if path == [] then Some(v)
    else if v.JObj? && path[0] in v.fields then Lookup(v.fields[path[0]], path[1..])
    else None
  }

  /** Patch values win at every depth: whatever non-object value (a scalar,
      `null` or a whole array) the patch holds at a path is what the merge
      holds there, so arrays are replaced wholesale and never merged. */
  lemma {:induction false} PatchLeafWins(base: Json, patch: Json, path: seq<string>)
    requires IsMergeBase(base) && patch.JObj? && path != []
    requires Lookup(patch, path).Some? && !Lookup(patch, path).value.JObj?
    ensures Lookup(Merge(base, patch), path) == Lookup(patch, path)
  {
    var k := path[0];
    var value := patch.fields[k];
    var r := Merge(base, patch);
    MergeAt(base, patch, k);
    if MergesRecursively(base, k, value) {
      PatchLeafWins(base.fields[k], value, path[1..]);
    } else {
      assert r.fields[k] == value;
    }
  }

  /** Merging a value into itself changes nothing. */
  lemma {:induction false} MergeSelf(x: Json)
    requires IsMergeBase(x)
    ensures Merge(x, x) == x
  {
    if x.JObj? {
      var r := Merge(x, x);
      forall k | k in x.fields
        ensures r.fields[k] == x.fields[k]
      {
        MergeAt(x, x, k);
        if MergesRecursively(x, k, x.fields[k]) {
          MergeSelf(x.fields[k]);
        }
      }
      assert r.fields == x.fields;
    }
  }

  /** Applying the same patch twice is the same as applying it once, so a
      repeated `setConfig` with one patch stores one value. */
  lemma {:induction false} MergeIdempotent(base: Json, patch: Json)
    requires IsMergeBase(base)
    ensures Merge(Merge(base, patch), patch) == Merge(base, patch)
  {
    var m := Merge(base, patch);
    if IsPatchObject(patch) {
      var entries := Entries(patch);
      var r := Merge(m, patch);
      forall k | k in m.fields
        ensures r.fields[k] == m.fields[k]
      {
        if k in entries {
          var v := entries[k];
          MergeAt(base, patch, k);
          MergeAt(m, patch, k);
          if MergesRecursively(base, k, v) {
            EntriesSmaller(patch);
            MergeIdempotent(base.fields[k], v);
          } else if v.JObj? {
            assert m.fields[k] == v;
            MergeSelf(v);
          }
        }
      }
      assert r.fields == m.fields;
    }
  }

  /** Merging the same base under a merged value again changes nothing, so
      a configuration made by merging defaults reads back as it was stored. */
  lemma {:induction false} MergeAbsorbs(base: Json, patch: Json)
    requires IsMergeBase(base)
    ensures Merge(base, Merge(base, patch)) == Merge(base, patch)
  {
    var m := Merge(base, patch);
    if !IsPatchObject(patch) {
      MergeSelf(base);
    } else {
      var entries := Entries(patch);
      var r := Merge(base, m);
      forall k | k in m.fields
        ensures r.fields[k] == m.fields[k]
      {
        MergeAt(base, m, k);
        if k in entries {
          var v := entries[k];
          MergeAt(base, patch, k);
          if MergesRecursively(base, k, v) {
            EntriesSmaller(patch);
            MergeAbsorbs(base.fields[k], v);
          }
        } else if MergesRecursively(base, k, m.fields[k]) {
          MergeSelf(base.fields[k]);
        }
      }
      assert r.fields == m.fields;
    }
  }

  /** Merging an object patch onto `null` yields the patch itself. */
  lemma MergeOntoNull(patch: Json)
    requires patch.JObj?
    ensures Merge(JNull, patch) == patch
  {
    assert Merge(JNull, patch).fields == patch.fields;
  }
}
