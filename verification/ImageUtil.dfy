/** internal/imageutil: container image references, read and printed. */
module ImageUtil {
  import opened Text

  datatype Reference = Reference(registry: string, repository: string, tag: string, digest: string)

  // ---- printing ----

  function Base(r: Reference): string {
    if r.registry != "" then r.registry + "/" + r.repository else r.repository
  }

  function Print(r: Reference): string {
    if r.digest != "" then Base(r) + "@" + r.digest
    else if r.tag != "" then Base(r) + ":" + r.tag
    else Base(r)
  }

  // ---- reading ----

  /** A text cut in two at a separator, or not cut because the separator does not occur. */
  datatype Cut = Whole(rest: string) | Parts(rest: string, part: string)

  function PartOf(c: Cut): string {
    if c.Parts? then c.part else ""
  }

  function CutDigest(s: string): Cut {
    var i := IndexOf(s, '@');
    if i >= 0 then Parts(s[..i], s[i + 1..]) else Whole(s)
  }

  function CutAtLast(s: string, c: char): Cut {
    var i := LastIndexOf(s, c);
    if i >= 0 then Parts(s[..i], s[i + 1..]) else Whole(s)
  }

  /** The tag follows the last colon of the last path segment. */
  function CutTag(s: string): Cut {
    var last := LastIndexOf(s, '/');
    if last >= 0 then
      var t := CutAtLast(s[last..], ':');
      if t.Parts? then Parts(s[..last] + t.rest, t.part) else Whole(s)
    else CutAtLast(s, ':')
  }

  predicate RegistryLike(head: string) {
    '.' in head || ':' in head || head == "localhost"
  }

  predicate LeadsWithRegistry(s: string) {
    IndexOf(s, '/') > 0 && RegistryLike(s[..IndexOf(s, '/')])
  }

  function RegistryOf(s: string): string {
    if LeadsWithRegistry(s) then s[..IndexOf(s, '/')] else ""
  }

  function RepositoryOf(s: string): string {
    if LeadsWithRegistry(s) then s[IndexOf(s, '/') + 1..] else s
  }

  /** The reference that a text without digest and tag begins. */
  function Named(s: string, tag: string, digest: string): Reference {
    Reference(RegistryOf(s), RepositoryOf(s), tag, digest)
  }

  function Reading(s: string): Reference {
    var d := CutDigest(s);
    var t := CutTag(d.rest);
    Named(t.rest, PartOf(t), PartOf(d))
  }

  method SplitTag(s: string) returns (rest: string, tag: string)
    ensures rest == CutTag(s).rest && tag == PartOf(CutTag(s))
  {
    rest, tag := s, "";
    var last := LastIndexOf(s, '/');
    if last >= 0 {
      var head, t := s[..last], CutAtLast(s[last..], ':');
      if t.Parts? {
        tag := t.part;
        rest := head + t.rest;
      }
    } else {
      var t := CutAtLast(s, ':');
      if t.Parts? {
        tag := t.part;
        rest := t.rest;
      }
    }
  }

  method SplitRegistry(s: string) returns (registry: string, rest: string)
    ensures registry == RegistryOf(s) && rest == RepositoryOf(s)
  {
    registry, rest := "", s;
    var i := IndexOf(s, '/');
    if i > 0 {
      var head := s[..i];
      if RegistryLike(head) {
        registry := head;
        rest := s[i + 1..];
      }
    }
  }

  method Parse(s: string) returns (result: Result<Reference>)
    ensures result == if s == "" || Reading(s).repository == "" then Err else Ok(Reading(s))
  {
    if s == "" {
      return Err;
    }
    var r := Reference("", "", "", "");
    var rest := s;
    var d := CutDigest(rest);
    if d.Parts? {
      r := r.(digest := d.part);
      rest := d.rest;
    }
    var tag, registry;
    rest, tag := SplitTag(rest);
    registry, rest := SplitRegistry(rest);
    r := r.(registry := registry, repository := rest, tag := tag);
    if r.repository == "" {
      return Err;
    }
    return Ok(r);
  }

  predicate ParsesTo(s: string, r: Reference) {
    s != "" && r.repository != "" && Reading(s) == r
  }

  // ---- what the cuts mean ----

  lemma DigestIsFirstCut(s: string)
    ensures var d := CutDigest(s);
      && '@' !in d.rest
      && (if d.Parts? then s == d.rest + "@" + d.part else s == d.rest)
  {
    var i := IndexOf(s, '@');
    if i >= 0 {
      assert s == s[..i] + [s[i]] + s[i + 1..];
    }
  }

  lemma CutsAtFirst(base: string, digest: string)
    requires '@' !in base
    ensures CutDigest(base + "@" + digest) == Parts(base, digest)
    ensures CutDigest(base) == Whole(base)
  {
    var s := base + "@" + digest;
    assert s[|base|] == '@' && forall k :: 0 <= k < |base| ==> s[k] == base[k];
    assert IndexOf(s, '@') == |base|;
    assert s[..|base|] == base && s[|base| + 1..] == digest;
  }

  /** A tag as `CutTag` yields one. */
  predicate TagLike(tag: string) {
    ':' !in tag && '/' !in tag
  }

  lemma SaysLast(s: string, c: char)
    ensures var t := CutAtLast(s, c);
      if t.Parts? then s == t.rest + [c] + t.part && c !in t.part else s == t.rest && c !in s
  {
    var i := LastIndexOf(s, c);
    if i >= 0 {
      assert s == s[..i] + [s[i]] + s[i + 1..];
    }
  }

  lemma CutsLast(base: string, c: char, part: string)
    requires c !in part
    ensures CutAtLast(base + [c] + part, c) == Parts(base, part)
  {
    var s, n := base + [c] + part, |base|;
    assert s[n] == c && s[n + 1..] == part && s[..n] == base;
    assert forall i :: n < i < |s| ==> s[i] == part[i - n - 1];
    var i := LastIndexOf(s, c);
    assert forall k :: i < k < |s| ==> s[k] == s[i + 1..][k - i - 1];
  }

  lemma TagIsLastCut(s: string)
    ensures var t := CutTag(s);
      if t.Parts? then s == t.rest + ":" + t.part && TagLike(t.part) else s == t.rest
  {
    var last := LastIndexOf(s, '/');
    if last >= 0 {
      var tail := s[last..];
      SaysLast(tail, ':');
      var t := CutAtLast(tail, ':');
      if t.Parts? {
        SlashGone(s, last, t);
      }
    } else {
      SaysLast(s, ':');
    }
  }

  lemma SlashGone(s: string, last: nat, t: Cut)
    requires last < |s| && s[last] == '/' && '/' !in s[last + 1..]
    requires t.Parts? && s[last..] == t.rest + ":" + t.part
    ensures '/' !in t.part && s == s[..last] + t.rest + ":" + t.part
  {
    var tail := s[last..];
    assert s == s[..last] + tail;
    assert t.part == tail[|t.rest| + 1..];
    forall k | 0 <= k < |t.part| ensures t.part[k] != '/' {
      assert t.part[k] == s[last + 1..][|t.rest| + k];
    }
  }

  lemma CutsAtLast(base: string, tag: string)
    requires TagLike(tag)
    ensures CutTag(base + ":" + tag) == Parts(base, tag)
  {
    var s := base + ":" + tag;
    var last := LastIndexOf(s, '/');
    if last >= 0 {
      SlashInBase(base, tag, last);
      CutsLast(base[last..], ':', tag);
      assert base[..last] + base[last..] == base;
    } else {
      CutsLast(base, ':', tag);
    }
  }

  lemma SlashInBase(base: string, tag: string, last: nat)
    requires TagLike(tag) && last < |base + ":" + tag| && (base + ":" + tag)[last] == '/'
    ensures last < |base| && (base + ":" + tag)[..last] == base[..last]
    ensures (base + ":" + tag)[last..] == base[last..] + ":" + tag
  {
    var s := base + ":" + tag;
    assert forall k :: |base| < k < |s| ==> s[k] == tag[k - |base| - 1];
  }

  lemma BaseOfNamed(s: string, tag: string, digest: string)
    ensures Base(Named(s, tag, digest)) == s
  {
    if LeadsWithRegistry(s) {
      var i := IndexOf(s, '/');
      assert s == s[..i] + [s[i]] + s[i + 1..];
    }
  }

  /** A registry the reader finds again, or none and nothing it takes for one. */
  predicate RegistryFound(r: Reference) {
    if r.registry != "" then '/' !in r.registry && RegistryLike(r.registry) else !LeadsWithRegistry(r.repository)
  }

  lemma NamedOfBase(r: Reference)
    ensures Named(Base(r), r.tag, r.digest) == r <==> RegistryFound(r)
  {
    var s := Base(r);
    var i := IndexOf(s, '/');
    var n := |r.registry|;
    if n > 0 {
      assert s[n] == '/' && forall k :: 0 <= k < n ==> s[k] == r.registry[k];
      assert s[..n] == r.registry && s[n + 1..] == r.repository;
      assert '/' !in r.registry <==> i == n;
    }
  }

  lemma HeadEndsAtSlash(head: string, rest: string, s: string)
    requires '/' !in head && s == head + "/" + rest
    ensures IndexOf(s, '/') == |head| && s[..|head|] == head && s[|head| + 1..] == rest
  {
    assert s[|head|] == '/' && forall k :: 0 <= k < |head| ==> s[k] == head[k];
  }

  lemma RegistryWords(head: string)
    ensures RegistryLike(head) <==> '.' in head || ':' in head || head == "localhost"
  {
  }

  /** For every text: what stands before the first slash is the registry exactly when it is not
      empty and has a dot or a colon in it or is localhost; everything else is the repository. */
  lemma RegistryIsHead(head: string, rest: string, s: string, tag: string, digest: string)
    requires '/' !in head && s == head + "/" + rest
    ensures Named(s, tag, digest) ==
      if head != "" && ('.' in head || ':' in head || head == "localhost")
      then Reference(head, rest, tag, digest) else Reference("", s, tag, digest)
    ensures Named(head, tag, digest) == Reference("", head, tag, digest)
  {
    HeadEndsAtSlash(head, rest, s);
    RegistryWords(head);
  }

  // ---- round trips ----

  /** Both separators are followed by something, and not both occur. */
  predicate Plain(s: string) {
    var d := CutDigest(s);
    var t := CutTag(d.rest);
    (d.Parts? ==> d.part != "" && t.Whole?) && (t.Parts? ==> t.part != "")
  }

  /** Reading and printing an accepted text gives it back exactly when it is `Plain`. */
  lemma ReadThenPrint(s: string)
    requires s != "" && Reading(s).repository != ""
    ensures Print(Reading(s)) == s <==> Plain(s)
  {
    var d := CutDigest(s);
    var t := CutTag(d.rest);
    DigestIsFirstCut(s);
    TagIsLastCut(d.rest);
    BaseOfNamed(t.rest, PartOf(t), PartOf(d));
  }

  function LastSegment(s: string): string {
    s[LastIndexOf(s, '/') + 1..]
  }

  lemma NoTagMeans(s: string)
    ensures CutTag(s).Whole? <==> ':' !in LastSegment(s)
  {
    var last := LastIndexOf(s, '/');
    if last >= 0 {
      SaysLast(s[last..], ':');
      assert s[last..] == "/" + LastSegment(s);
    } else {
      SaysLast(s, ':');
      assert LastSegment(s) == s;
    }
  }

  /** What the reader requires of a reference to find it again. */
  predicate Canonical(r: Reference) {
    && r.repository != "" && '@' !in Base(r) && RegistryFound(r)
    && (r.tag != "" ==> TagLike(r.tag) && '@' !in r.tag && r.digest == "")
    && (r.tag == "" ==> ':' !in LastSegment(Base(r)))
  }

  lemma BareIsWhole(base: string)
    requires ':' !in LastSegment(base)
    ensures CutTag(base) == Whole(base)
  {
    NoTagMeans(base);
    TagIsLastCut(base);
  }

  lemma BareIsRead(r: Reference)
    requires r.repository != "" && '@' !in Base(r) && RegistryFound(r) && r.tag == ""
    requires CutTag(Base(r)) == Whole(Base(r))
    ensures ParsesTo(Print(r), r)
  {
    NamedOfBase(r);
    CutsAtFirst(Base(r), r.digest);
  }

  lemma TaggedIsRead(r: Reference)
    requires r.repository != "" && '@' !in Base(r) && RegistryFound(r)
    requires r.tag != "" && TagLike(r.tag) && '@' !in r.tag && r.digest == ""
    ensures ParsesTo(Print(r), r)
  {
    NamedOfBase(r);
    CutsAtLast(Base(r), r.tag);
    CutsAtFirst(Base(r) + ":" + r.tag, r.digest);
  }

  lemma CanonicalIsRead(r: Reference)
    requires Canonical(r)
    ensures ParsesTo(Print(r), r)
  {
    if r.tag != "" {
      TaggedIsRead(r);
    } else {
      BareIsWhole(Base(r));
      BareIsRead(r);
    }
  }

  lemma ReadIsCanonical(r: Reference)
    requires ParsesTo(Print(r), r)
    ensures Canonical(r)
  {
    var s, base := Print(r), Base(r);
    var d := CutDigest(s);
    var t := CutTag(d.rest);
    DigestIsFirstCut(s);
    TagIsLastCut(d.rest);
    BaseOfNamed(t.rest, PartOf(t), PartOf(d));
    NamedOfBase(r);
    CutsAtFirst(base, r.digest);
    NoTagMeans(base);
  }

  /** Printing and reading a reference gives it back exactly when it is `Canonical`. */
  lemma PrintThenRead(r: Reference)
    ensures ParsesTo(Print(r), r) <==> Canonical(r)
  {
    if Canonical(r) {
      CanonicalIsRead(r);
    }
    if ParsesTo(Print(r), r) {
      ReadIsCanonical(r);
    }
  }

  /** Beside a digest the tag is not printed, and so not found again. */
  lemma TagIsLost(r: Reference)
    requires r.digest != "" && r.tag != "" && '@' !in Base(r)
    ensures CutDigest(Print(r)) == Parts(Base(r), r.digest)
    ensures !ParsesTo(Print(r), r)
  {
    CutsAtFirst(Base(r), r.digest);
    PrintThenRead(r);
  }

  /** A colon in the tag, or an at-sign in the repository, is not found again, however plain the
      rest of the reference is. */
  lemma SeparatorsAreLost(name: string, a: string, b: string)
    ensures !ParsesTo(Print(Reference("", name, a + ":" + b, "")), Reference("", name, a + ":" + b, ""))
    ensures !ParsesTo(Print(Reference("", a + "@" + b, "", name)), Reference("", a + "@" + b, "", name))
  {
    var tag, repository := a + ":" + b, a + "@" + b;
    assert tag[|a|] == ':' && repository[|a|] == '@';
    PrintThenRead(Reference("", name, tag, ""));
    PrintThenRead(Reference("", repository, "", name));
  }
}
