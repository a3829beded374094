/** The access lists of the JavaScript bindings and their mask matcher. */
module Acl {
  import opened Common
  import opened Text
  import opened Oids
  import opened Masks
  import PgMatcher
  import opened Items
  import opened ItemMaps
  import opened Inventories

  const KINDS: seq<string> := ["unit", "sensor", "lvar", "lmacro", "+"]

  datatype BadOid = NoKind | UnknownKind

  /** The path form of an OID or mask given as text. */
  function AsPath(s: string): Result<string, BadOid> {
    var (kind, id) := Cut(s, ':');
    if id.None? then Err(NoKind)
    else if kind !in KINDS then Err(UnknownKind)
    else Ok(kind + "/" + id.value)
  }

  // ----- matching -----

  /** Some mask of the list matches the path. */
  ghost predicate SomeMatches(path: string, masks: seq<string>) {
    exists i :: 0 <= i < |masks| && WildMatches(Split(masks[i], '/'), Split(path, '/'))
  }

  /** The whole-list and the equal-path shortcuts change nothing: both are matches of a mask of the list. */
  lemma ShortcutsAreMatches(path: string)
    ensures WildMatches(Split("#", '/'), Split(path, '/'))
    ensures WildMatches(Split(path, '/'), Split(path, '/'))
  {
    assert Find("#", '/') == 1;
    assert Split("#", '/') == ["#"];
  }

  lemma ShortcutsAreSound(path: string, masks: seq<string>)
    requires "#" in masks || path in masks
    ensures SomeMatches(path, masks)
  {
    ShortcutsAreMatches(path);
    var i :| 0 <= i < |masks| && (masks[i] == "#" || masks[i] == path);
    assert WildMatches(Split(masks[i], '/'), Split(path, '/'));
  }

  method PathMatch(path: string, masks: seq<string>) returns (r: bool)
    ensures r <==> SomeMatches(path, masks)
  {
    if "#" in masks || path in masks {
      ShortcutsAreSound(path, masks);
      return true;
    }
    for k := 0 to |masks|
      invariant forall i :: 0 <= i < k ==> !WildMatches(Split(masks[i], '/'), Split(path, '/'))
    {
      var matched := MaskMatch(Split(masks[k], '/'), Split(path, '/'));
      if matched {
        return true;
      }
    }
    return false;
  }

  method MaskMatch(g1: seq<string>, g2: seq<string>) returns (r: bool)
    requires g1 != []
    ensures r <==> WildMatches(g1, g2)
  {
    r := true;
    var i := 0;
    while i < |g1|
      invariant 0 <= i <= |g1| && i <= |g2|
      invariant REST !in g1[..i]
      invariant forall k :: 0 <= k < i ==> g1[k] == ANY || g1[k] == g2[k]
      invariant r <==> !(i == |g1| && |g2| > |g1|)
    {
      if i >= |g2| {
        NotCovered(g1, g2, i);
        return false;
      }
      if g1[i] == REST {
        assert g1 == g1[..i] + [REST] + g1[i + 1..];
        FindAfter(g1[..i], REST, g1[i + 1..]);
        return true;
      }
      if g1[i] != ANY && g1[i] != g2[i] {
        NotCovered(g1, g2, i);
        return false;
      }
      if i == |g1| - 1 && |g2| > |g1| {
        r := false;
      }
      assert g1[..i + 1] == g1[..i] + [g1[i]];
      i := i + 1;
    }
    assert g1[..i] == g1;
  }

  /** A chunk before any `#` that meets no chunk or another one rules the mask out. */
  lemma NotCovered(mask: seq<string>, path: seq<string>, i: nat)
    requires i < |mask| && REST !in mask[..i]
    requires i == |path| || (i < |path| && mask[i] != REST && mask[i] != ANY && mask[i] != path[i])
    ensures !WildMatches(mask, path)
  {
    FindAtLeast(mask, REST, i);
  }

  /** Matching an OID against a list; one malformed mask makes the whole call fail. */
  ghost function OidMatch(oid: OID, masks: seq<string>): Result<bool, ()> {
    if forall m :: m in masks && m != "#" ==> AsPath(m).Ok? then Ok(OidMatches(oid, masks)) else Err(())
  }

  ghost predicate OidMatches(oid: OID, masks: seq<string>) {
    exists m :: m in masks && OneMatches(oid, m)
  }

  /** One well-formed mask, read as a path. */
  ghost predicate OneMatches(oid: OID, mask: string) {
    var path := if mask == "#" then Ok(mask) else AsPath(mask);
    path.Ok? && WildMatches(Split(path.value, '/'), Split(oid.AsPath(), '/'))
  }

  method OidMatchList(oid: OID, masks: seq<string>) returns (r: Result<bool, ()>)
    ensures r == OidMatch(oid, masks)
  {
    var paths: seq<string> := [];
    for i := 0 to |masks|
      invariant |paths| == i
      invariant forall k :: 0 <= k < i ==>
        (masks[k] == "#" && paths[k] == "#") || (masks[k] != "#" && AsPath(masks[k]) == Ok(paths[k]))
    {
      if masks[i] == "#" {
        paths := paths + [masks[i]];
      } else {
        var path := AsPath(masks[i]);
        if path.Err? {
          assert masks[i] in masks;
          return Err(());
        }
        paths := paths + [path.value];
      }
    }
    var matched := PathMatch(oid.AsPath(), paths);
    SomeOrOne(oid, masks, paths);
    return Ok(matched);
  }

  lemma SomeOrOne(oid: OID, masks: seq<string>, paths: seq<string>)
    requires |paths| == |masks|
    requires forall k :: 0 <= k < |masks| ==>
      (masks[k] == "#" && paths[k] == "#") || (masks[k] != "#" && AsPath(masks[k]) == Ok(paths[k]))
    ensures SomeMatches(oid.AsPath(), paths) <==> OidMatches(oid, masks)
  {
    if SomeMatches(oid.AsPath(), paths) {
      var i :| 0 <= i < |paths| && WildMatches(Split(paths[i], '/'), Split(oid.AsPath(), '/'));
      assert masks[i] in masks && OneMatches(oid, masks[i]);
    }
    if OidMatches(oid, masks) {
      var m :| m in masks && OneMatches(oid, m);
      var i :| 0 <= i < |masks| && masks[i] == m;
      assert WildMatches(Split(paths[i], '/'), Split(oid.AsPath(), '/'));
    }
  }

  // ----- the two matchers -----

  lemma SplitPath(kind: string, id: string)
    requires '/' !in kind
    ensures Split(kind + "/" + id, '/') == [kind] + Split(id, '/')
  {
    SplitStep(kind, '/', id);
  }

  lemma WildStep(k: string, mask: seq<string>, j: string, path: seq<string>)
    requires k != REST
    ensures WildMatches([k] + mask, [j] + path) <==> (k == ANY || k == j) && WildMatches(mask, path)
  {
    var m, p := [k] + mask, [j] + path;
    FindTail(m);
    assert m[1..] == mask;
    var h := Find(mask, REST);
    if (k == ANY || k == j) && WildMatches(mask, path) {
      forall i | 0 <= i < h + 1
        ensures m[i] == ANY || m[i] == p[i]
      {
        assert i > 0 ==> m[i] == mask[i - 1] && p[i] == path[i - 1];
      }
    }
    if WildMatches(m, p) {
      forall i | 0 <= i < h
        ensures mask[i] == ANY || mask[i] == path[i]
      {
        assert mask[i] == m[i + 1] && path[i] == p[i + 1];
      }
    }
  }

  /** A mask text both matchers accept: a kind and an id. */
  function MaskText(kind: string, chunks: Chunks): string {
    kind + ":" + Join(chunks, '/')
  }

  ghost predicate GoodMask(kind: string, chunks: Chunks) {
    kind in KINDS && forall c :: c in chunks ==> '/' !in c
  }

  lemma JsReadsMask(oid: OID, kind: string, chunks: Chunks)
    requires Parsed(oid) && GoodMask(kind, chunks)
    ensures OneMatches(oid, MaskText(kind, chunks)) <==>
      (kind == ANY || kind == KindName(oid.kind)) && WildMatches(chunks, oid.path)
  {
    var id := Join(chunks, '/');
    KindsAreNames(kind);
    CutOf(kind, ':', id);
    MaskTextLong(kind, chunks);
    SplitPath(kind, id);
    SplitJoin(chunks, '/');
    SplitPath(KindName(oid.kind), oid.FullId());
    FullIdSplits(oid);
    WildStep(kind, chunks, KindName(oid.kind), oid.path);
  }

  lemma KindsAreNames(kind: string)
    requires kind in KINDS
    ensures ':' !in kind && '/' !in kind && kind != REST && kind != "?"
    ensures kind != ANY ==> KindName(KindFor(kind)) == kind
  {
    var i :| 0 <= i < |KINDS| && KINDS[i] == kind;
    assert i == 0 || i == 1 || i == 2 || i == 3 || i == 4;
  }

  lemma NotWildcard(s: string)
    requires |s| > 1
    ensures s !in PgMatcher.WILDCARDS && s != "#"
  {
    assert |PgMatcher.WILDCARDS[0]| == 1 && |PgMatcher.WILDCARDS[1]| == 1;
  }

  lemma PgReadsMask(oid: OID, kind: string, chunks: Chunks)
    requires Parsed(oid) && GoodMask(kind, chunks)
    ensures PgMatcher.Answer(oid.AsString(), MaskText(kind, chunks)) ==
      Ok((kind == ANY || kind == KindName(oid.kind)) && WildMatches(PgMatcher.CanonicalMask(chunks), oid.path))
  {
    var id, text := Join(chunks, '/'), MaskText(kind, chunks);
    KindsAreNames(kind);
    CutOf(kind, ':', id);
    CutOf(KindName(oid.kind), ':', oid.FullId());
    SplitJoin(chunks, '/');
    FullIdSplits(oid);
    MaskTextLong(kind, chunks);
    NotWildcard(text);
    assert kind in PgMatcher.MATCH_ANY <==> kind == ANY;
  }

  lemma MaskTextLong(kind: string, chunks: Chunks)
    requires kind in KINDS
    ensures |MaskText(kind, chunks)| > 1
  {
    assert |kind| >= 1;
  }

  /** The item tree reads a mask of literals, `+` and `#` as the database extension does. */
  lemma TreeReadsMask(p: Patterns, oid: OID, kind: string, chunks: Chunks)
    requires Parsed(oid) && GoodMask(kind, chunks) && Plain(p, chunks) && PgMatcher.AliasFree(chunks)
    ensures var mask := OIDMask(if kind == ANY then None else Some(KindFor(kind)), Some(chunks));
      PgMatcher.Answer(oid.AsString(), MaskText(kind, chunks)) == Ok(MaskMatches(p, mask, oid))
  {
    PgReadsMask(oid, kind, chunks);
    PgMatcher.AliasFreeAgrees(chunks, oid.path);
    PlainCovers(p, chunks, oid.path);
    KindsAreNames(kind);
    if kind == KindName(oid.kind) && kind != ANY {
      KindNameInjective(KindFor(kind), oid.kind);
    }
  }

  /**
   The bindings and the database extension give every item the same answer for a mask,
   exactly when the mask has no `*` or `?` chunk before its first `#`.
   */
  lemma MatchersAgreeIff(kind: string, chunks: Chunks)
    requires GoodMask(kind, chunks)
    ensures PgMatcher.AliasFree(chunks) <==>
      forall oid: OID :: Parsed(oid) ==>
        PgMatcher.Answer(oid.AsString(), MaskText(kind, chunks)) == Ok(OneMatches(oid, MaskText(kind, chunks)))
  {
    if PgMatcher.AliasFree(chunks) {
      forall oid: OID | Parsed(oid)
        ensures PgMatcher.Answer(oid.AsString(), MaskText(kind, chunks)) == Ok(OneMatches(oid, MaskText(kind, chunks)))
      {
        JsReadsMask(oid, kind, chunks);
        PgReadsMask(oid, kind, chunks);
        PgMatcher.AliasFreeAgrees(chunks, oid.path);
      }
    } else {
      var oid := DisagreeingItem(kind, chunks);
    }
  }

  lemma DisagreeingItem(kind: string, chunks: Chunks) returns (oid: OID)
    requires GoodMask(kind, chunks) && !PgMatcher.AliasFree(chunks)
    ensures Parsed(oid)
    ensures PgMatcher.Answer(oid.AsString(), MaskText(kind, chunks)) == Ok(true) &&
      !OneMatches(oid, MaskText(kind, chunks))
  {
    var i :| 0 <= i < Find(chunks, REST) && (chunks[i] == "*" || chunks[i] == "?");
    PgMatcher.SeparatingPathMatches(chunks);
    PgMatcher.SeparatingPathFails(chunks, i);
    SeparatingPathParsed(chunks);
    KindsAreNames(kind);
    oid := OID(KindFor(kind), PgMatcher.SeparatingPath(chunks));
    JsReadsMask(oid, kind, chunks);
    PgReadsMask(oid, kind, chunks);
  }

  lemma SeparatingPathParsed(chunks: Chunks)
    requires forall c :: c in chunks ==> '/' !in c
    ensures PgMatcher.SeparatingPath(chunks) != [] && forall c :: c in PgMatcher.SeparatingPath(chunks) ==> '/' !in c
  {
    var path := PgMatcher.SeparatingPath(chunks);
    forall c | c in path
      ensures '/' !in c
    {
      var i :| 0 <= i < |path| && path[i] == c;
      assert c == "x" || c == chunks[i];
    }
  }

  // ----- mask texts -----

  /** The kind part of a mask text. */
  function MaskKind(mask: string): string {
    Cut(mask, ':').0
  }

  /** The chunks of a mask text with a kind and an id. */
  function MaskChunks(mask: string): Chunks
    requires Cut(mask, ':').1.Some?
  {
    Split(Cut(mask, ':').1.value, '/')
  }

  predicate HasKindAndId(mask: string) {
    Cut(mask, ':').1.Some? && MaskKind(mask) in KINDS
  }

  lemma TextOfMask(mask: string)
    requires HasKindAndId(mask)
    ensures MaskText(MaskKind(mask), MaskChunks(mask)) == mask && GoodMask(MaskKind(mask), MaskChunks(mask))
  {
    CutJoins(mask, ':');
    JoinSplit(Cut(mask, ':').1.value, '/');
  }

  /** Both matchers refuse the mask, or both give the item the same answer. */
  ghost predicate SameAnswer(oid: OID, mask: string) {
    var pg, js := PgMatcher.Answer(oid.AsString(), mask), OidMatch(oid, [mask]);
    pg.Ok? == js.Ok? && (pg.Ok? ==> pg.value == js.value)
  }

  /** `#` alone, a text that is no mask for either, or a known kind with no `*` or `?` chunk before the first `#`. */
  ghost predicate ReadAlike(mask: string) {
    || mask == "#"
    || (mask != "*" && Cut(mask, ':').1.None?)
    || (HasKindAndId(mask) && PgMatcher.AliasFree(MaskChunks(mask)))
  }

  /** The bindings and the database extension treat a text alike, for every item, if and only if it is one of these. */
  lemma MatchersAgreeOnText(mask: string)
    ensures ReadAlike(mask) <==> forall oid: OID :: Parsed(oid) ==> SameAnswer(oid, mask)
  {
    var some := OID(Unit, ["x"]);
    if HasKindAndId(mask) {
      TextOfMask(mask);
      NotOneChar(mask);
      MatchersAgreeIff(MaskKind(mask), MaskChunks(mask));
      forall oid: OID
        ensures SameAnswer(oid, mask) <==> PgMatcher.Answer(oid.AsString(), mask) == Ok(OneMatches(oid, mask))
      {
        OneMaskAnswer(oid, mask);
        PgAnswers(oid, mask);
      }
    } else {
      forall oid: OID
        ensures SameAnswer(oid, mask) <==> ReadAlike(mask)
      {
        OtherTexts(oid, mask);
      }
      assert Parsed(some);
    }
  }

  lemma NotOneChar(mask: string)
    requires Cut(mask, ':').1.Some?
    ensures mask !in PgMatcher.WILDCARDS && mask != "#" && mask != "*"
  {
    assert ':' in mask;
  }

  lemma OneMaskAnswer(oid: OID, mask: string)
    ensures OidMatch(oid, [mask]) == if mask == "#" || AsPath(mask).Ok? then Ok(OneMatches(oid, mask)) else Err(())
  {
    assert [mask][0] == mask;
  }

  lemma PgAnswers(oid: OID, mask: string)
    requires mask !in PgMatcher.WILDCARDS
    ensures PgMatcher.Answer(oid.AsString(), mask).Ok? <==> Cut(mask, ':').1.Some?
  {
    CutOf(KindName(oid.kind), ':', oid.FullId());
  }

  lemma OtherTexts(oid: OID, mask: string)
    requires !HasKindAndId(mask)
    ensures SameAnswer(oid, mask) <==> ReadAlike(mask)
  {
    OneMaskAnswer(oid, mask);
    assert mask in PgMatcher.WILDCARDS <==> mask == "*" || mask == "#";
    if mask in PgMatcher.WILDCARDS {
      assert Find(mask, ':') == 1;
      ShortcutsAreMatches(oid.AsPath());
    } else {
      PgAnswers(oid, mask);
    }
  }

  /** The mask a text is parsed into: `#` alone selects everything. */
  function ParsedMask(mask: string): OIDMask
    requires mask == "#" || HasKindAndId(mask)
  {
    if mask == "#" then OIDMask(None, None)
    else OIDMask(if MaskKind(mask) == ANY then None else Some(KindFor(MaskKind(mask))), Some(MaskChunks(mask)))
  }

  /**
   For `#` and for masks of literals, `+` and `#` the item tree selects an item exactly if the extension
   answers true.
   */
  lemma TreeReadsText(p: Patterns, oid: OID, mask: string)
    requires Parsed(oid)
    requires mask == "#" || (HasKindAndId(mask) && Plain(p, MaskChunks(mask)) && PgMatcher.AliasFree(MaskChunks(mask)))
    ensures PgMatcher.Answer(oid.AsString(), mask) == Ok(MaskMatches(p, ParsedMask(mask), oid))
  {
    if mask != "#" {
      TextOfMask(mask);
      TreeReadsMask(p, oid, MaskKind(mask), MaskChunks(mask));
    }
  }

  function KindFor(kind: string): ItemKind {
    if kind == "sensor" then Sensor else if kind == "lvar" then Lvar else if kind == "lmacro" then Lmacro else Unit
  }

  // ----- access lists -----

  datatype ACL = ACL(admin: bool, read: seq<string>, write: seq<string>, denyRead: seq<string>) {

    ghost predicate WellFormed() {
      forall m :: m in read || m in write || m in denyRead ==> m == "#" || AsPath(m).Ok?
    }

    ghost predicate IsItemReadable(oid: OID) {
      admin || ((OidMatches(oid, read) || OidMatches(oid, write)) && !OidMatches(oid, denyRead))
    }
  }

  /** The check as the bindings make it; a malformed mask it comes across makes it fail. */
  method IsItemReadable(acl: ACL, oid: OID) returns (r: Result<bool, ()>)
    ensures r.Ok? ==> r.value == acl.IsItemReadable(oid)
    ensures r.Ok? ==>
      var allowed := exists m :: (m in acl.read || m in acl.write) && OneMatches(oid, m);
      var denied := exists m :: m in acl.denyRead && OneMatches(oid, m);
      r.value == (acl.admin || (allowed && !denied))
    ensures acl.WellFormed() ==> r.Ok?
  {
    if acl.admin {
      return Ok(true);
    }
    var allowed := OidMatchList(oid, acl.read);
    if allowed.Err? {
      return Err(());
    }
    if !allowed.value {
      allowed := OidMatchList(oid, acl.write);
      if allowed.Err? {
        return Err(());
      }
    }
    if !allowed.value {
      return Ok(false);
    }
    var denied := OidMatchList(oid, acl.denyRead);
    if denied.Err? {
      return Err(());
    }
    return Ok(!denied.value);
  }

  ghost predicate NoDuplicates(s: seq<string>) {
    forall i, j :: 0 <= i < j < |s| ==> s[i] != s[j]
  }

  method AddAll(known: seq<string>, masks: seq<string>) returns (r: seq<string>)
    requires NoDuplicates(known)
    ensures NoDuplicates(r) && forall m :: m in r <==> m in known || m in masks
  {
    r := known;
    for i := 0 to |masks|
      invariant NoDuplicates(r) && forall m :: m in r <==> m in known || m in masks[..i]
    {
      if masks[i] !in r {
        r := r + [masks[i]];
      }
    }
  }

  /**
   The generated lists say the same as the access list: an item is readable when it is on the first and not
   on the second.
   */
  method GetItemsAllowDenyReading(acl: ACL) returns (allow: seq<string>, deny: seq<string>)
    ensures NoDuplicates(allow) && NoDuplicates(deny)
    ensures forall oid :: acl.IsItemReadable(oid) <==> OidMatches(oid, allow) && !OidMatches(oid, deny)
  {
    allow, deny := [], [];
    if acl.admin {
      allow := ["#"];
    } else {
      allow := AddAll(allow, acl.read);
      allow := AddAll(allow, acl.write);
      deny := AddAll(deny, acl.denyRead);
    }
    forall oid
      ensures acl.IsItemReadable(oid) <==> OidMatches(oid, allow) && !OidMatches(oid, deny)
    {
      ReadableByLists(acl, oid, allow, deny);
    }
  }

  ghost predicate ListsOf(acl: ACL, allow: seq<string>, deny: seq<string>) {
    && (forall m :: m in allow <==> if acl.admin then m == "#" else m in acl.read || m in acl.write)
    && (forall m :: m in deny <==> !acl.admin && m in acl.denyRead)
  }

  lemma ReadableByLists(acl: ACL, oid: OID, allow: seq<string>, deny: seq<string>)
    requires ListsOf(acl, allow, deny)
    ensures acl.IsItemReadable(oid) <==> OidMatches(oid, allow) && !OidMatches(oid, deny)
  {
    if acl.admin {
      ShortcutsAreMatches(oid.AsPath());
      assert "#" in allow && OneMatches(oid, "#");
    }
  }

  lemma FilterAdds(item: ItemData, node: Option<NodeFilter>, pattern: Option<OID -> bool>, allows: OID -> bool,
                   denies: OID -> bool)
    ensures Filter(Some(allows), Some(denies), node, pattern).Matches(item)
      <==> Filter(None, None, node, pattern).Matches(item) && allows(item.oid) && !denies(item.oid)
  {
  }

  /**
   Adding the generated lists as include and exclude filter, matched the way the bindings match them,
   to any listing leaves exactly its readable items, whatever masks, node or pattern it asks for.
   */
  lemma ListingIsReadable(p: Patterns, contents: map<OID, ItemData>, masks: seq<OIDMask>, node: Option<NodeFilter>,
                          pattern: Option<OID -> bool>, includeStateless: bool,
                          acl: ACL, allow: seq<string>, deny: seq<string>, allows: OID -> bool, denies: OID -> bool)
    requires OwnKeys(contents) && ListsOf(acl, allow, deny)
    requires forall o :: allows(o) == OidMatches(o, allow) && denies(o) == OidMatches(o, deny)
    ensures Listing(p, contents, masks, Filter(Some(allows), Some(denies), node, pattern), includeStateless)
         == set x | x in Listing(p, contents, masks, Filter(None, None, node, pattern), includeStateless)
                    && acl.IsItemReadable(x.oid)
  {
    forall o | o in contents
      ensures Filter(Some(allows), Some(denies), node, pattern).Matches(contents[o])
        <==> Filter(None, None, node, pattern).Matches(contents[o]) && acl.IsItemReadable(contents[o].oid)
    {
      assert acl.IsItemReadable(o) <==> allows(o) && !denies(o) by {
        ReadableByLists(acl, o, allow, deny);
      }
      FilterAdds(contents[o], node, pattern, allows, denies);
    }
  }
}
