/** internal/patcher: which changes `%v` tells apart, so that diffMaps records them. */
module PatcherPrinting {
  import opened Text
  import opened Patcher
  import Words

  // ---- single values ----

  /** Two booleans, two numbers or two texts. */
  predicate SameSort(a: Json, b: Json) {
    (a.Boolean? && b.Boolean?) || (a.Number? && b.Number?) || (a.Text? && b.Text?)
  }

  /** A null, a boolean, an array or an object: their texts begin with different letters. */
  predicate Marked(v: Json) {
    v.Null? || v.Boolean? || v.Array? || v.Object?
  }

  predicate SameConstructor(a: Json, b: Json) {
    || (a.Null? && b.Null?) || (a.Boolean? && b.Boolean?) || (a.Array? && b.Array?) || (a.Object? && b.Object?)
    || (a.Number? && b.Number?) || (a.Text? && b.Text?)
  }

  function FirstLetter(v: Json): char
    requires Marked(v)
  {
    match v
    case Null => '<'
    case Boolean(b) => if b then 't' else 'f'
    case Array(_) => '['
    case Object(_) => 'm'
  }

  lemma ShowBegins(v: Json)
    requires Marked(v)
    ensures Show(v) != "" && Show(v)[0] == FirstLetter(v)
  {
  }

  /** Of two values of one sort, a change is recorded exactly when they differ; and a change between
      a null, a boolean, an array and an object always is. */
  lemma ChangesAreRecorded(a: Json, b: Json)
    ensures SameSort(a, b) ==> (Entry(a, b) == None <==> a == b) && (Entry(a, b).Some? ==> Entry(a, b).value == b)
    ensures Marked(a) && Marked(b) && !SameConstructor(a, b) ==> Entry(a, b) == Some(b)
  {
    if Marked(a) && Marked(b) {
      ShowBegins(a);
      ShowBegins(b);
    }
  }

  // ---- arrays ----

  function Shown(vs: seq<Json>): (ts: seq<string>)
    ensures |ts| == |vs| && forall i :: 0 <= i < |vs| ==> ts[i] == Show(vs[i])
  {
    seq(|vs|, i requires 0 <= i < |vs| => Show(vs[i]))
  }

  lemma {:induction false} ElementsAreJoined(v: Json, i: nat)
    requires v.Array? && i <= |v.elements|
    ensures ShowElements(v, i) == Join(Shown(v.elements[i..]), ' ')
    decreases |v.elements| - i
  {
    if i < |v.elements| {
      var rest := v.elements[i + 1..];
      ElementsAreJoined(v, i + 1);
      assert v.elements[i..][0] == v.elements[i];
      assert Shown(v.elements[i..])[1..] == Shown(rest);
    }
  }

  /** An array prints as its elements with blanks between them, in brackets. */
  lemma ArrayIsJoined(v: Json)
    requires v.Array?
    ensures Show(v) == ['['] + Join(Shown(v.elements), ' ') + [']']
  {
    ElementsAreJoined(v, 0);
    assert v.elements[0..] == v.elements;
  }

  function Pairs(v: Json, keys: seq<string>): (ts: seq<string>)
    requires v.Object? && forall k :: k in keys ==> k in v.members
    ensures |ts| == |keys| && forall i :: 0 <= i < |keys| ==> ts[i] == keys[i] + ":" + Show(v.members[keys[i]])
  {
    seq(|keys|, i requires 0 <= i < |keys| => keys[i] + ":" + Show(v.members[keys[i]]))
  }

  lemma {:induction false} MembersAreJoined(v: Json, keys: seq<string>)
    requires v.Object? && forall k :: k in keys ==> k in v.members
    ensures ShowMembers(v, keys) == Join(Pairs(v, keys), ' ')
  {
    if keys != [] {
      MembersAreJoined(v, keys[1..]);
      assert Pairs(v, keys)[1..] == Pairs(v, keys[1..]);
    }
  }

  /** An object prints as its members in the order of their keys. */
  lemma ObjectIsJoined(v: Json)
    requires v.Object?
    ensures Show(v) == "map[" + Join(Pairs(v, SortedKeys(v.members.Keys)), ' ') + "]"
  {
    MembersAreJoined(v, SortedKeys(v.members.Keys));
  }

  /** A boolean, or a number or text without white space. */
  predicate Word(v: Json) {
    match v
    case Boolean(_) => true
    case Number(t) => t != "" && NoSpace(t)
    case Text(t) => t != "" && NoSpace(t)
    case _ => false
  }

  predicate AllWords(vs: seq<Json>) {
    forall i :: 0 <= i < |vs| ==> Word(vs[i])
  }

  lemma WordsAreWords(vs: seq<Json>)
    requires AllWords(vs)
    ensures forall i :: 0 <= i < |vs| ==> Shown(vs)[i] != "" && NoSpace(Shown(vs)[i])
  {
    forall i | 0 <= i < |vs| ensures Shown(vs)[i] != "" && NoSpace(Shown(vs)[i]) {
      assert Word(vs[i]);
    }
  }

  /** Arrays of words print alike exactly when their elements do, one by one. */
  lemma WordArraysPrintApart(a: Json, b: Json)
    requires a.Array? && b.Array? && AllWords(a.elements) && AllWords(b.elements)
    ensures Show(a) == Show(b) <==> Shown(a.elements) == Shown(b.elements)
  {
    var x, y := Join(Shown(a.elements), ' '), Join(Shown(b.elements), ' ');
    ArrayIsJoined(a);
    ArrayIsJoined(b);
    if Show(a) == Show(b) {
      assert x == Show(a)[1..|Show(a)| - 1] && y == Show(b)[1..|Show(b)| - 1];
      WordsAreWords(a.elements);
      WordsAreWords(b.elements);
      Words.FieldsOfJoin(Shown(a.elements));
      Words.FieldsOfJoin(Shown(b.elements));
    }
  }

  /** Arrays of words in which equal places hold values of one sort. */
  predicate AlikeArrays(a: Json, b: Json) {
    && a.Array? && b.Array? && AllWords(a.elements) && AllWords(b.elements)
    && forall i :: 0 <= i < |a.elements| && i < |b.elements| ==> SameSort(a.elements[i], b.elements[i])
  }

  lemma AlikeArraysPrintApart(a: Json, b: Json)
    requires AlikeArrays(a, b)
    ensures Show(a) == Show(b) <==> a == b
  {
    WordArraysPrintApart(a, b);
    if Shown(a.elements) == Shown(b.elements) {
      forall i | 0 <= i < |a.elements| ensures a.elements[i] == b.elements[i] {
        assert Shown(a.elements)[i] == Shown(b.elements)[i];
        assert SameSort(a.elements[i], b.elements[i]);
        ChangesAreRecorded(a.elements[i], b.elements[i]);
      }
      assert a.elements == b.elements;
    }
  }

  // ---- a condition without printing ----

  /** Two values, not both objects, that `%v` tells apart whenever they differ. */
  predicate Comparable(a: Json, b: Json) {
    SameSort(a, b) || AlikeArrays(a, b) || (Marked(a) && Marked(b) && !SameConstructor(a, b))
  }

  /** Every value that is written is free of nulls, and every differing pair of values that is not
      two objects is Comparable, at every depth. */
  predicate Ordinary(o: Members, m: Members)
    decreases Object(m), 0
  {
    forall k :: k in m ==> if k !in o then NullFree(m[k]) else OrdinaryValue(o[k], m[k])
  }

  predicate OrdinaryValue(o: Json, m: Json)
    decreases m, 1
  {
    if o.Object? && m.Object? then Ordinary(o.members, m.members)
    else o == m || (Comparable(o, m) && NullFree(m))
  }

  lemma ComparablePrintApart(a: Json, b: Json)
    requires Comparable(a, b) && !(a.Object? && b.Object?)
    ensures Show(a) == Show(b) <==> a == b
  {
    if AlikeArrays(a, b) {
      AlikeArraysPrintApart(a, b);
    } else {
      ChangesAreRecorded(a, b);
    }
  }

  lemma {:induction false} OrdinaryIsExpressible(o: Members, m: Members)
    requires Ordinary(o, m)
    ensures Expressible(o, m)
    decreases Object(m)
  {
    forall k | k in m && k in o ensures ExpressibleValue(o[k], m[k]) {
      assert OrdinaryValue(o[k], m[k]);
      if o[k].Object? && m[k].Object? {
        OrdinaryIsExpressible(o[k].members, m[k].members);
      } else if o[k] != m[k] {
        ComparablePrintApart(o[k], m[k]);
      }
    }
  }

  /** Merging the patch into the original gives the modified object for every ordinary pair; and a
      request is skipped exactly for equal ones. */
  lemma OrdinaryChangesArrive(o: Members, m: Members)
    requires Ordinary(o, m)
    ensures MergeMembers(o, Diff(o, m)) == m
    ensures Diff(o, m) == map[] <==> o == m
  {
    OrdinaryIsExpressible(o, m);
    PatchReproducesModified(o, m);
    RequestSkippedForEqual(o, m);
  }
}
