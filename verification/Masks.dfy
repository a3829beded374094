/**
 OID masks. The meaning of a mask is given once, without recursion, by `Covers`
 (all chunk forms of the item tree) and `WildMatches` (literals, `+` and `#` only);
 every matcher of the system is proved against one of them.
 */
module Masks {
  import opened Common
  import opened Text
  import opened Oids

  const ANY := "+"
  const REST := "#"

  /** Formula and regular expression chunks: their prefixes and abstract matchers. */
  datatype Patterns = Patterns(
    formulaPrefix: string,
    formula: (string, string) -> bool,
    regexPrefix: string,
    regexValid: string -> bool,
    regex: (string, string) -> bool)

  predicate ChunkMatches(p: Patterns, chunk: string, name: string) {
    if chunk == ANY then
      true
    else if p.formulaPrefix <= chunk then
      p.formula(chunk[|p.formulaPrefix|..], name)
    else if p.regexPrefix <= chunk then
      var re := chunk[|p.regexPrefix|..];
      p.regexValid(re) && p.regex(re, name)
    else
      chunk == name
  }

  /** The four forms of a chunk, told apart in this order. */
  lemma ChunksMean(p: Patterns, text: string, name: string)
    ensures ChunkMatches(p, "+", name)
    ensures p.formulaPrefix + text != "+" ==>
      (ChunkMatches(p, p.formulaPrefix + text, name) <==> p.formula(text, name))
    ensures p.regexPrefix + text != "+" && !(p.formulaPrefix <= p.regexPrefix + text) ==>
      (ChunkMatches(p, p.regexPrefix + text, name) <==> p.regexValid(text) && p.regex(text, name))
    ensures text != "+" && !(p.formulaPrefix <= text) && !(p.regexPrefix <= text) ==>
      (ChunkMatches(p, text, name) <==> text == name)
  {
    assert (p.formulaPrefix + text)[|p.formulaPrefix|..] == text;
    assert (p.regexPrefix + text)[|p.regexPrefix|..] == text;
  }

  /**
   Everything before the first `#` matches chunk by chunk; a `#` stands for one or
   more remaining chunks, whatever the mask says after it.
   */
  ghost predicate Covers(p: Patterns, mask: seq<string>, path: seq<string>) {
    var h := Find(mask, REST);
    && (if h < |mask| then h < |path| else |path| == |mask|)
    && forall i :: 0 <= i < h ==> ChunkMatches(p, mask[i], path[i])
  }

  ghost predicate WildMatches(mask: seq<string>, path: seq<string>) {
    var h := Find(mask, REST);
    && (if h < |mask| then h < |path| else |path| == |mask|)
    && forall i :: 0 <= i < h ==> mask[i] == ANY || mask[i] == path[i]
  }

  /** A mask with neither formula nor regular expression chunks. */
  ghost predicate Plain(p: Patterns, mask: seq<string>) {
    forall c :: c in mask && c != ANY && c != REST ==> !(p.formulaPrefix <= c) && !(p.regexPrefix <= c)
  }

  lemma PlainCovers(p: Patterns, mask: seq<string>, path: seq<string>)
    requires Plain(p, mask)
    ensures Covers(p, mask, path) <==> WildMatches(mask, path)
  {
    var h := Find(mask, REST);
    forall i | 0 <= i < h
      ensures i < |path| ==> (ChunkMatches(p, mask[i], path[i]) <==> (mask[i] == ANY || mask[i] == path[i]))
    {
      assert mask[i] in mask && mask[i] == mask[..h][i];
    }
  }

  /** A kind and a chunk list, each absent when the mask leaves it open. */
  datatype OIDMask = OIDMask(kind: Option<ItemKind>, chunks: Option<seq<string>>)

  ghost predicate MaskMatches(p: Patterns, mask: OIDMask, oid: OID) {
    && (mask.kind.Some? ==> mask.kind.value == oid.kind)
    && (mask.chunks.Some? ==> Covers(p, mask.chunks.value, oid.path))
  }

  // ----- walking a mask chunk by chunk -----

  lemma FindTail(mask: seq<string>)
    requires mask != [] && mask[0] != REST
    ensures Find(mask, REST) == 1 + Find(mask[1..], REST)
  {
  }

  /** How one level of a tree walk consumes one chunk of the mask. */
  lemma CoversStep(p: Patterns, mask: seq<string>, path: seq<string>)
    ensures mask == [] ==> (Covers(p, mask, path) <==> path == [])
    ensures mask != [] && mask[0] == REST ==> (Covers(p, mask, path) <==> path != [])
    ensures mask != [] && mask[0] != REST ==>
      (Covers(p, mask, path) <==>
        path != [] && ChunkMatches(p, mask[0], path[0]) && Covers(p, mask[1..], path[1..]))
  {
    if mask != [] && mask[0] != REST && path != [] {
      FindTail(mask);
      var h := Find(mask, REST);
      if ChunkMatches(p, mask[0], path[0]) && Covers(p, mask[1..], path[1..]) {
        forall i | 0 <= i < h
          ensures ChunkMatches(p, mask[i], path[i])
        {
          assert i > 0 ==> mask[i] == mask[1..][i - 1] && path[i] == path[1..][i - 1];
        }
      }
      if Covers(p, mask, path) {
        forall i | 0 <= i < h - 1
          ensures ChunkMatches(p, mask[1..][i], path[1..][i])
        {
          assert mask[1..][i] == mask[i + 1] && path[1..][i] == path[i + 1];
        }
      }
    }
  }
}

/** The mask matcher of the PostgreSQL extension. */
module PgMatcher {
  import opened Common
  import opened Text
  import opened Masks

  const WILDCARDS: seq<string> := ["*", "#"]
  const MATCH_ANY: seq<string> := ["+", "?"]

  /** The extension's `*` and `?` are further spellings of `#` and `+`. */
  function Canonical(chunk: string): string {
    if chunk in WILDCARDS then REST else if chunk in MATCH_ANY then ANY else chunk
  }

  function CanonicalMask(mask: seq<string>): (r: seq<string>)
    ensures |r| == |mask|
    ensures forall i :: 0 <= i < |mask| ==> r[i] == Canonical(mask[i])
  {
    seq(|mask|, i requires 0 <= i < |mask| => Canonical(mask[i]))
  }

  datatype MatchError = InvalidOid | InvalidMask

  /** What the extension answers, stated with the canonical mask instead of a loop. */
  ghost function Answer(oid: string, mask: string): Result<bool, MatchError> {
    var (kind, id) := Cut(oid, ':');
    var (maskKind, maskId) := Cut(mask, ':');
    if mask in WILDCARDS then Ok(true)
    else if id.None? then Err(InvalidOid)
    else if maskId.None? then Err(InvalidMask)
    else Ok(
      && (maskKind in MATCH_ANY || maskKind == kind)
      && WildMatches(CanonicalMask(Split(maskId.value, '/')), Split(id.value, '/')))
  }

  method OidMatch(oid: string, mask: string) returns (r: Result<bool, MatchError>)
    ensures r == Answer(oid, mask)
    ensures mask == "*" || mask == "#" ==> r == Ok(true)
    ensures mask != "*" && mask != "#" && ':' !in oid ==> r == Err(InvalidOid)
    ensures mask != "*" && mask != "#" && ':' in oid && ':' !in mask ==> r == Err(InvalidMask)
  {
    if mask in WILDCARDS {
      return Ok(true);
    }
    var (kind, id) := Cut(oid, ':');
    if id.None? {
      return Err(InvalidOid);
    }
    var (maskKind, maskId) := Cut(mask, ':');
    if maskId.None? {
      return Err(InvalidMask);
    }
    if maskKind !in MATCH_ANY && maskKind != kind {
      return Ok(false);
    }
    var matched := ChunksMatch(Split(id.value, '/'), Split(maskId.value, '/'));
    return Ok(matched);
  }

  method ChunksMatch(path: seq<string>, mask: seq<string>) returns (r: bool)
    requires path != []
    ensures r <==> WildMatches(CanonicalMask(mask), path)
  {
    ghost var canonical := CanonicalMask(mask);
    var next := 0;
    for i := 0 to |path|
      invariant next == i <= |mask|
      invariant REST !in canonical[..i]
      invariant forall k :: 0 <= k < i ==> canonical[k] == ANY || canonical[k] == path[k]
    {
      if next == |mask| {
        return false;
      }
      var chunk := mask[next];
      next := next + 1;
      if chunk in WILDCARDS {
        assert canonical == canonical[..i] + [REST] + canonical[i + 1..];
        FindAfter(canonical[..i], REST, canonical[i + 1..]);
        return true;
      }
      if chunk !in MATCH_ANY && chunk != path[i] {
        assert canonical[i] == chunk;
        assert REST !in canonical[..i + 1];
        return false;
      }
      assert canonical[..i + 1] == canonical[..i] + [canonical[i]];
    }
    return next == |mask|;
  }

  /** No `*` or `?` chunk before the first `#`. */
  ghost predicate AliasFree(mask: seq<string>) {
    forall i :: 0 <= i < Find(mask, REST) ==> mask[i] != "*" && mask[i] != "?"
  }

  /**
   The extension reads a mask the way the rest of the system does, on every path,
   exactly when no alias stands before the first `#`.
   */
  lemma AgreesExactlyWhenAliasFree(mask: seq<string>)
    ensures AliasFree(mask) <==>
      forall path: seq<string> :: path != [] ==>
        (WildMatches(CanonicalMask(mask), path) <==> WildMatches(mask, path))
  {
    if AliasFree(mask) {
      SameRest(mask);
      forall path: seq<string> | path != []
        ensures WildMatches(CanonicalMask(mask), path) <==> WildMatches(mask, path)
      {
        AliasFreeAgrees(mask, path);
      }
    } else {
      AliasSeparates(mask);
    }
  }

  lemma SameRest(mask: seq<string>)
    requires AliasFree(mask)
    ensures Find(CanonicalMask(mask), REST) == Find(mask, REST)
  {
    var h, c := Find(mask, REST), CanonicalMask(mask);
    assert forall i :: 0 <= i < h ==> mask[i] == mask[..h][i];
    if h < |mask| {
      assert c == c[..h] + [REST] + c[h + 1..];
      FindAfter(c[..h], REST, c[h + 1..]);
    }
  }

  lemma AliasFreeAgrees(mask: seq<string>, path: seq<string>)
    requires AliasFree(mask)
    ensures WildMatches(CanonicalMask(mask), path) <==> WildMatches(mask, path)
  {
    SameRest(mask);
    var h := Find(mask, REST);
    assert forall i :: 0 <= i < h ==> mask[i] == mask[..h][i];
    assert forall i :: 0 <= i < h ==> CanonicalMask(mask)[i] == mask[i];
  }

  /** The path that copies the literals of a mask and puts a name no wildcard spells elsewhere. */
  function Separator(mask: seq<string>, len: nat): (path: seq<string>)
    requires len <= |mask|
    ensures |path| == len
  {
    seq(len, i requires 0 <= i < len =>
      if mask[i] in WILDCARDS || mask[i] in MATCH_ANY then "x" else mask[i])
  }

  /** As long as the canonical mask needs it to be. */
  function SeparatingPath(mask: seq<string>): seq<string> {
    var h := Find(CanonicalMask(mask), REST);
    Separator(mask, if h < |mask| then h + 1 else |mask|)
  }

  lemma SeparatingPathMatches(mask: seq<string>)
    ensures WildMatches(CanonicalMask(mask), SeparatingPath(mask))
  {
    var c := CanonicalMask(mask);
    var h := Find(c, REST);
    forall k | 0 <= k < h
      ensures c[k] == ANY || c[k] == SeparatingPath(mask)[k]
    {
      assert c[k] == c[..h][k];
    }
  }

  lemma SeparatingPathFails(mask: seq<string>, i: nat)
    requires i < Find(mask, REST) && (mask[i] == "*" || mask[i] == "?")
    ensures !WildMatches(mask, SeparatingPath(mask))
  {
    var h := Find(CanonicalMask(mask), REST);
    var path := SeparatingPath(mask);
    if i < |path| {
      assert path[i] == "x";
    } else {
      assert path[h] == "x" && mask[h] in WILDCARDS;
      assert mask[h] == mask[..Find(mask, REST)][h];
    }
  }

  lemma AliasSeparates(mask: seq<string>)
    requires !AliasFree(mask)
    ensures exists path: seq<string> :: path != [] && WildMatches(CanonicalMask(mask), path) && !WildMatches(mask, path)
  {
    var i :| 0 <= i < Find(mask, REST) && (mask[i] == "*" || mask[i] == "?");
    SeparatingPathMatches(mask);
    SeparatingPathFails(mask, i);
    assert SeparatingPath(mask) != [];
  }
}
