/**
 Splitting a sequence at a separator, as Rust's `split`/`splitn` and JavaScript's
 `String.split` do: a sequence with n separators has n + 1 (possibly empty) chunks.
 */
module Text {
  import opened Common

  /** Position of the first separator, or the length when there is none. */
  function Find<T(==)>(s: seq<T>, sep: T): (i: nat)
    ensures i <= |s|
    ensures sep !in s[..i]
    ensures i < |s| ==> s[i] == sep
    ensures i == |s| <==> sep !in s
  {
    if s == [] || s[0] == sep then 0 else
      var i := 1 + Find(s[1..], sep);
      assert s[..i] == [s[0]] + s[1..][..i - 1];
      assert s == [s[0]] + s[1..];
      i
  }

  function Split<T(==)>(s: seq<T>, sep: T): (r: seq<seq<T>>)
    ensures |r| >= 1
    decreases |s|
  {
    var i := Find(s, sep);
    if i == |s| then [s] else [s[..i]] + Split(s[i + 1..], sep)
  }

  /** `splitn(2, sep)`: the text before the first separator and, if there is one, the text after it. */
  function Cut<T(==)>(s: seq<T>, sep: T): (r: (seq<T>, Option<seq<T>>))
  {
    var i := Find(s, sep);
    (s[..i], if i == |s| then None else Some(s[i + 1..]))
  }

  function Join<T>(chunks: seq<seq<T>>, sep: T): seq<T>
    requires |chunks| >= 1
  {
    if |chunks| == 1 then chunks[0] else chunks[0] + [sep] + Join(chunks[1..], sep)
  }

  lemma {:induction false} FindAfter<T>(before: seq<T>, sep: T, after: seq<T>)
    requires sep !in before
    ensures Find(before + [sep] + after, sep) == |before|
  {
    if before != [] {
      FindAfter(before[1..], sep, after);
      assert (before + [sep] + after)[1..] == before[1..] + [sep] + after;
    }
  }

  lemma {:induction false} FindAtLeast<T>(s: seq<T>, sep: T, i: nat)
    requires i <= |s| && sep !in s[..i]
    ensures Find(s, sep) >= i
    decreases |s|
  {
    if i > 0 {
      assert s[..i][0] == s[0];
      assert s[1..][..i - 1] == s[..i][1..];
      FindAtLeast(s[1..], sep, i - 1);
    }
  }

  lemma CutJoins<T>(s: seq<T>, sep: T)
    requires Cut(s, sep).1.Some?
    ensures s == Cut(s, sep).0 + [sep] + Cut(s, sep).1.value
  {
  }

  /** Cutting at the separator undoes writing `before`, the separator and `after`. */
  lemma CutOf<T>(before: seq<T>, sep: T, after: seq<T>)
    requires sep !in before
    ensures Cut(before + [sep] + after, sep) == (before, Some(after))
  {
    FindAfter(before, sep, after);
    var s := before + [sep] + after;
    assert s[..|before|] == before;
    assert s[|before| + 1..] == after;
  }

  lemma {:induction false} JoinSplit<T>(s: seq<T>, sep: T)
    ensures Join(Split(s, sep), sep) == s
    ensures forall c :: c in Split(s, sep) ==> sep !in c
    decreases |s|
  {
    var i := Find(s, sep);
    if i < |s| {
      var rest := Split(s[i + 1..], sep);
      JoinSplit(s[i + 1..], sep);
      assert Split(s, sep)[1..] == rest;
      assert s == s[..i] + [sep] + s[i + 1..];
    }
  }

  lemma SplitStep<T>(before: seq<T>, sep: T, after: seq<T>)
    requires sep !in before
    ensures Split(before + [sep] + after, sep) == [before] + Split(after, sep)
  {
    CutOf(before, sep, after);
    FindAfter(before, sep, after);
  }

  lemma {:induction false} SplitJoin<T>(chunks: seq<seq<T>>, sep: T)
    requires |chunks| >= 1
    requires forall c :: c in chunks ==> sep !in c
    ensures Split(Join(chunks, sep), sep) == chunks
    decreases |chunks|
  {
    if |chunks| > 1 {
      var rest := Join(chunks[1..], sep);
      SplitJoin(chunks[1..], sep);
      SplitStep(chunks[0], sep, rest);
    }
  }
}
