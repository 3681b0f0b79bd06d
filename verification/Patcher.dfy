/** internal/patcher: the JSON merge patch computed by diffMaps, against the MergePatch
    procedure of section 2 of RFC 7396. */
module Patcher {
  import opened Text

  type Members = map<string, Json>

  /** A decoded JSON value. A number is a float64 and is identified with its shortest decimal
      text, which is also how `%v` shows it. */
  datatype Json =
    | Null
    | Boolean(b: bool)
    | Number(shortest: string)
    | Text(text: string)
    | Array(elements: seq<Json>)
    | Object(members: Members)

  // ---- fmt.Sprintf("%v", value) ----

  function Show(v: Json): string
    decreases v
  {
    match v
    case Null => "<nil>"
    case Boolean(b) => if b then "true" else "false"
    case Number(t) => t
    case Text(t) => t
    case Array(_) => "[" + ShowElements(v, 0) + "]"
    case Object(m) => "map[" + ShowMembers(v, SortedKeys(m.Keys)) + "]"
  }

  function ShowElements(v: Json, i: nat): string
    requires v.Array? && i <= |v.elements|
    decreases v, |v.elements| - i
  {
    if i == |v.elements| then ""
    else if i == |v.elements| - 1 then Show(v.elements[i])
    else Show(v.elements[i]) + " " + ShowElements(v, i + 1)
  }

  function ShowMembers(v: Json, keys: seq<string>): string
    requires v.Object? && forall k :: k in keys ==> k in v.members
    decreases v, |keys|
  {
    if keys == [] then ""
    else
      var first := keys[0] + ":" + Show(v.members[keys[0]]);
      if |keys| == 1 then first else first + " " + ShowMembers(v, keys[1..])
  }

  // ---- diffMaps ----

  /** What diffMaps records for a key that both objects hold; None when it records nothing. */
  function Entry(o: Json, m: Json): Option<Json>
    decreases m, 1
  {
    if o.Object? && m.Object? then
      var sub := Diff(o.members, m.members);
      if |sub| > 0 then Some(Object(sub)) else None
    else if Show(o) != Show(m) then Some(m)
    else None
  }

  /** The patch as a specification: one entry per key that was added, changed or removed. */
  function Diff(o: Members, m: Members): (patch: Members)
    decreases Object(m), 0
  {
    map k | k in m.Keys + o.Keys && (k in m && k in o ==> Entry(o[k], m[k]).Some?) ::
      if k !in m then Null
      else if k !in o then m[k]
      else Entry(o[k], m[k]).value
  }

  /** diffMaps: two loops fill a fresh map; Go visits the keys in no particular order. */
  method DiffMaps(original: Members, modified: Members) returns (patch: Members)
    ensures patch == Diff(original, modified)
    decreases Object(modified)
  {
    patch := map[];
    var todo := modified.Keys;
    while todo != {}
      invariant todo <= modified.Keys
      invariant patch.Keys <= modified.Keys - todo
      invariant forall k :: k in modified.Keys - todo ==> (k in patch <==> k in Diff(original, modified))
      invariant forall k :: k in patch ==> k in Diff(original, modified) && patch[k] == Diff(original, modified)[k]
      decreases todo
    {
      var key :| key in todo;
      todo := todo - {key};
      var modVal := modified[key];
      if key !in original {
        patch := patch[key := modVal];
        continue;
      }
      var origVal := original[key];
      if modVal.Object? && origVal.Object? {
        var sub := DiffMaps(origVal.members, modVal.members);
        if |sub| > 0 {
          patch := patch[key := Object(sub)];
        }
        continue;
      }
      if Show(origVal) != Show(modVal) {
        patch := patch[key := modVal];
      }
    }
    var rest := original.Keys;
    while rest != {}
      invariant rest <= original.Keys
      invariant patch.Keys <= modified.Keys + (original.Keys - rest)
      invariant forall k :: k in modified.Keys + (original.Keys - rest) ==>
        (k in patch <==> k in Diff(original, modified))
      invariant forall k :: k in patch ==> k in Diff(original, modified) && patch[k] == Diff(original, modified)[k]
      decreases rest
    {
      var key :| key in rest;
      rest := rest - {key};
      if key !in modified {
        patch := patch[key := Null];
      }
    }
  }

  // ---- section 2 of RFC 7396 ----

  /** MergePatch(Target, Patch); an absent target is None. */
  function MergePatch(target: Option<Json>, patch: Json): Json
    decreases patch, 1
  {
    if patch.Object? then
      Object(MergeMembers(if target.Some? && target.value.Object? then target.value.members else map[], patch.members))
    else patch
  }

  function MergeMembers(target: Members, patch: Members): Members
    decreases Object(patch), 0
  {
    map k | k in target.Keys + patch.Keys && !(k in patch && patch[k].Null?) ::
      if k in patch then MergePatch(if k in target then Some(target[k]) else None, patch[k])
      else target[k]
  }

  // ---- when the patch reproduces the modified object ----

  /** No null can be reached through objects; a null inside an array is harmless, because a
      merge patch replaces arrays whole. */
  predicate NullFree(v: Json) {
    match v
    case Null => false
    case Object(m) => forall k :: k in m ==> NullFree(m[k])
    case _ => true
  }

  /** The side condition: a value the patch has to write holds no null, and two different
      values never share their `%v` text. */
  predicate Expressible(o: Members, m: Members)
    decreases Object(m), 0
  {
    forall k :: k in m ==>
      if k !in o then NullFree(m[k]) else ExpressibleValue(o[k], m[k])
  }

  predicate ExpressibleValue(o: Json, m: Json)
    decreases m, 1
  {
    if o.Object? && m.Object? then Expressible(o.members, m.members)
    else o == m || (Show(o) != Show(m) && NullFree(m))
  }

  /** Merging into nothing keeps a value exactly when it is free of nulls. */
  lemma {:induction false} MergeIntoNothing(v: Json, target: Option<Json>)
    requires target.Some? ==> !target.value.Object?
    ensures !v.Null? ==> (MergePatch(target, v) == v <==> NullFree(v))
    decreases v
  {
    if v.Object? {
      var merged := MergeMembers(map[], v.members);
      forall k | k in v.members
        ensures !v.members[k].Null? ==> (MergePatch(None, v.members[k]) == v.members[k] <==> NullFree(v.members[k]))
      {
        MergeIntoNothing(v.members[k], None);
      }
      if NullFree(v) {
        forall k | k in v.members ensures k in merged && merged[k] == v.members[k] {
          assert NullFree(v.members[k]);
        }
        assert merged == v.members;
      } else {
        var k :| k in v.members && !NullFree(v.members[k]);
        assert k !in merged || merged[k] != v.members[k];
      }
    }
  }

  lemma MergeNothing(o: Members)
    ensures MergeMembers(o, map[]) == o
  {}

  /** The main result: applying the patch to the original gives the modified object exactly
      when the pair is Expressible, for all objects at every depth. */
  lemma {:induction false} PatchReproducesModified(o: Members, m: Members)
    ensures MergeMembers(o, Diff(o, m)) == m <==> Expressible(o, m)
    decreases Object(m), 0
  {
    var patch := Diff(o, m);
    var merged := MergeMembers(o, patch);
    forall k | k in m
      ensures (k in merged && merged[k] == m[k]) <==>
              (if k !in o then NullFree(m[k]) else ExpressibleValue(o[k], m[k]))
    {
      if k !in o {
        MergeIntoNothing(m[k], None);
      } else {
        EntryReproducesValue(o[k], m[k]);
      }
    }
    assert merged.Keys <= m.Keys;
    if Expressible(o, m) {
      assert merged == m;
    }
  }

  /** The entry for a key reproduces its value exactly when the pair of values is Expressible. */
  ghost predicate EntryIsRight(o: Json, m: Json) {
    var e := Entry(o, m);
    if e.None? then o == m <==> ExpressibleValue(o, m)
    else if e.value.Null? then !ExpressibleValue(o, m)
    else MergePatch(Some(o), e.value) == m <==> ExpressibleValue(o, m)
  }

  lemma EntryOfObjects(o: Members, m: Members)
    ensures Entry(Object(o), Object(m)) == if |Diff(o, m)| > 0 then Some(Object(Diff(o, m))) else None
    ensures ExpressibleValue(Object(o), Object(m)) == Expressible(o, m)
  {
  }

  lemma PatchOfObjects(o: Members, patch: Members)
    ensures MergePatch(Some(Object(o)), Object(patch)) == Object(MergeMembers(o, patch))
    ensures |patch| == 0 ==> MergeMembers(o, patch) == o
  {
    if |patch| == 0 {
      assert patch == map[];
      MergeNothing(o);
    }
  }

  lemma ObjectEntry(o: Members, m: Members)
    requires MergeMembers(o, Diff(o, m)) == m <==> Expressible(o, m)
    ensures EntryIsRight(Object(o), Object(m))
  {
    EntryOfObjects(o, m);
    PatchOfObjects(o, Diff(o, m));
  }

  lemma LeafEntry(o: Json, m: Json)
    requires !o.Object? || !m.Object?
    ensures EntryIsRight(o, m)
  {
    if !o.Object? {
      MergeIntoNothing(m, Some(o));
    }
  }

  lemma {:induction false} EntryReproducesValue(o: Json, m: Json)
    ensures EntryIsRight(o, m)
    decreases m, 1
  {
    if o.Object? && m.Object? {
      PatchReproducesModified(o.members, m.members);
      ObjectEntry(o.members, m.members);
    } else {
      LeafEntry(o, m);
    }
  }

  // ---- the "{}" short-circuit of Patch ----

  /** The two values differ at most in leaves with the same `%v` text. */
  predicate LooksEqual(o: Json, m: Json)
    decreases m
  {
    if o.Object? && m.Object? then
      o.members.Keys == m.members.Keys && forall k :: k in m.members ==> LooksEqual(o.members[k], m.members[k])
    else Show(o) == Show(m)
  }

  lemma {:induction false} LooksEqualReflexive(v: Json)
    ensures LooksEqual(v, v)
  {
    if v.Object? {
      forall k | k in v.members ensures LooksEqual(v.members[k], v.members[k]) {
        LooksEqualReflexive(v.members[k]);
      }
    }
  }

  /** Nothing is recorded for the key `k`, or for a key that only one object holds. */
  ghost predicate Unrecorded(o: Members, m: Members, k: string) {
    k in o && k in m && Entry(o[k], m[k]).None?
  }

  lemma EmptyDiff(o: Members, m: Members)
    ensures Diff(o, m) == map[] <==> forall k :: k in m.Keys + o.Keys ==> Unrecorded(o, m, k)
  {
    if Diff(o, m) == map[] {
      forall k | k in m.Keys + o.Keys ensures Unrecorded(o, m, k) {
        assert k !in Diff(o, m);
      }
    } else {
      var k :| k in Diff(o, m);
      assert !Unrecorded(o, m, k);
    }
  }

  /** The patch is empty, so that no request is sent, exactly when the objects look equal. */
  lemma {:induction false} EmptyPatch(o: Members, m: Members)
    ensures Diff(o, m) == map[] <==> LooksEqual(Object(o), Object(m))
    decreases Object(m)
  {
    EmptyDiff(o, m);
    forall k | k in m && k in o ensures Unrecorded(o, m, k) <==> LooksEqual(o[k], m[k]) {
      if o[k].Object? && m[k].Object? {
        EmptyPatch(o[k].members, m[k].members);
      }
    }
    if LooksEqual(Object(o), Object(m)) {
      assert forall k :: k in m.Keys + o.Keys ==> k in m && k in o;
    } else if o.Keys == m.Keys {
      var k :| k in m && !LooksEqual(o[k], m[k]);
      assert !Unrecorded(o, m, k);
    } else {
      var k :| k in m.Keys + o.Keys && (k !in m || k !in o);
      assert !Unrecorded(o, m, k);
    }
  }

  /** No request is ever sent for equal objects; and for an Expressible pair the request is
      skipped only then. */
  lemma RequestSkippedForEqual(o: Members, m: Members)
    ensures o == m ==> Diff(o, m) == map[]
    ensures Expressible(o, m) ==> (Diff(o, m) == map[] <==> o == m)
  {
    EmptyPatch(o, m);
    LooksEqualReflexive(Object(o));
    PatchReproducesModified(o, m);
    MergeNothing(o);
  }

  /** The two ways to be inexpressible. The number 1 and the text "1" look equal, so the change
      is lost; an added null is taken for a removal. */
  lemma LostChanges()
    ensures Diff(map["a" := Number("1")], map["a" := Text("1")]) == map[]
    ensures MergeMembers(map[], Diff(map[], map["a" := Null])) == map[]
  {
    var o, m := map["a" := Number("1")], map["a" := Text("1")];
    assert Show(o["a"]) == Show(m["a"]);
    assert forall k :: k in m.Keys + o.Keys ==> k == "a";
    assert forall k :: k !in Diff(o, m);
    assert forall k :: k !in MergeMembers(map[], Diff(map[], map["a" := Null]));
  }
}
