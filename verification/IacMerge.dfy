/** Merging a flat export into the first node of a deployment document. */
module IacMerge {
  import opened Common

  datatype Yaml =
    | Null
    | Bool(b: bool)
    | Num(n: int)
    | Str(s: string)
    | List(items: seq<Yaml>)
    | Dict(fields: map<string, Yaml>)

  const RESOURCE_IDS: map<string, seq<string>> := map[
    "acls" := ["id"],
    "keys" := ["id"],
    "users" := ["login"],
    "items" := ["oid"],
    "svcs" := ["id"],
    "data_objects" := ["name"],
    "generator_sources" := ["name"],
    "video_recordings" := ["oid"],
    "alarms" := ["group", "id"]]

  type Identity = seq<Yaml>

  datatype MergeError =
    | BadExport | Unsupported | BadSection | NotIac | BadContent | BadOldSection
    | NotMapping | FieldMissing | EmptyIdentity | NotHashable | Duplicate

  /** The fields that identify a resource; they must be there, not null, and usable as a key. */
  function ResourceId(fields: seq<string>, value: Yaml): Result<Identity, MergeError> {
    if !value.Dict? then Err(NotMapping)
    else if exists f :: f in fields && f !in value.fields then Err(FieldMissing)
    else
      var identity := seq(|fields|,
        i requires 0 <= i < |fields| => assert fields[i] in fields; value.fields[fields[i]]);
      if Null in identity then Err(EmptyIdentity)
      else if exists v :: v in identity && (v.List? || v.Dict?) then Err(NotHashable)
      else Ok(identity)
  }

  predicate IsScalar(v: Yaml) {
    v.Bool? || v.Num? || v.Str?
  }

  /** A resource has an identity if each identifying field is there and a scalar; it is their values in order. */
  lemma IdentityMeans(fields: seq<string>, value: Yaml)
    ensures ResourceId(fields, value).Ok? <==>
      value.Dict? && forall f :: f in fields ==> f in value.fields && IsScalar(value.fields[f])
    ensures ResourceId(fields, value).Ok? ==>
      var id := ResourceId(fields, value).value;
      && |id| == |fields|
      && forall i :: 0 <= i < |fields| ==> fields[i] in value.fields && id[i] == value.fields[fields[i]]
  {
    if value.Dict? && forall f :: f in fields ==> f in value.fields {
      var identity := seq(|fields|,
        i requires 0 <= i < |fields| => assert fields[i] in fields; value.fields[fields[i]]);
      forall f | f in fields
        ensures value.fields[f] in identity
      {
        var i :| 0 <= i < |fields| && fields[i] == f;
        assert identity[i] == value.fields[f];
      }
      assert forall v :: v in identity ==> exists f :: f in fields && value.fields[f] == v;
    }
  }

  /** Two resources are the same one if and only if they agree on every identifying field. */
  lemma SameIdentity(fields: seq<string>, a: Yaml, b: Yaml)
    requires ResourceId(fields, a).Ok? && ResourceId(fields, b).Ok?
    ensures forall f :: f in fields ==> a.Dict? && f in a.fields && b.Dict? && f in b.fields
    ensures ResourceId(fields, a) == ResourceId(fields, b) <==>
      forall f :: f in fields ==> a.fields[f] == b.fields[f]
  {
    IdentityMeans(fields, a);
    IdentityMeans(fields, b);
    var x, y := ResourceId(fields, a).value, ResourceId(fields, b).value;
    if x == y {
      forall f | f in fields
        ensures a.fields[f] == b.fields[f]
      {
        var i :| 0 <= i < |fields| && fields[i] == f;
        assert x[i] == y[i];
      }
    }
  }

  /** The supported sections and what identifies their resources. */
  lemma IdentifyingFields(resource: string)
    ensures resource in RESOURCE_IDS <==>
      resource in ["acls", "keys", "users", "items", "svcs", "data_objects", "generator_sources", "video_recordings",
                   "alarms"]
    ensures resource in RESOURCE_IDS ==>
      var fields := RESOURCE_IDS[resource];
      if resource == "alarms" then fields == ["group", "id"]
      else if resource == "users" then fields == ["login"]
      else if resource == "items" || resource == "video_recordings" then fields == ["oid"]
      else if resource == "data_objects" || resource == "generator_sources" then fields == ["name"]
      else fields == ["id"]
  {
  }

  // ----- merging two lists of resources -----

  ghost predicate Identified(fields: seq<string>, values: seq<Yaml>) {
    forall i :: 0 <= i < |values| ==> ResourceId(fields, values[i]).Ok?
  }

  /** The identity of the i-th resource. */
  function Id(fields: seq<string>, values: seq<Yaml>, i: nat): Identity
    requires i < |values| && ResourceId(fields, values[i]).Ok?
  {
    ResourceId(fields, values[i]).value
  }

  ghost predicate Unique(fields: seq<string>, values: seq<Yaml>) {
    && Identified(fields, values)
    && forall i, j :: 0 <= i < j < |values| ==> Id(fields, values, i) != Id(fields, values, j)
  }

  /** The resource stands at k in the list and its identity does not come again. */
  ghost predicate LastOf(fields: seq<string>, values: seq<Yaml>, k: nat)
    requires k < |values| && Identified(fields, values)
  {
    forall j :: k < j < |values| ==> Id(fields, values, j) != Id(fields, values, k)
  }

  ghost predicate Mentions(fields: seq<string>, values: seq<Yaml>, id: Identity)
    requires Identified(fields, values)
  {
    exists k :: 0 <= k < |values| && Id(fields, values, k) == id
  }

  /** The value is the last one exported under its identity. */
  ghost predicate IsLatest(fields: seq<string>, exported: seq<Yaml>, value: Yaml)
    requires Identified(fields, exported)
  {
    exists k :: 0 <= k < |exported| && exported[k] == value && LastOf(fields, exported, k)
  }

  ghost predicate Entered(fields: seq<string>, known: seq<Yaml>, exported: seq<Yaml>, value: Yaml, i: nat)
    requires Identified(fields, exported) && ResourceId(fields, value).Ok?
  {
    if Mentions(fields, exported, ResourceId(fields, value).value) then IsLatest(fields, exported, value)
    else i < |known| && value == known[i]
  }

  /** Each entry holds its latest exported value or, if none was exported, its old one at its old place. */
  ghost predicate Values(fields: seq<string>, known: seq<Yaml>, exported: seq<Yaml>, merged: seq<Yaml>)
    requires Identified(fields, known) && Identified(fields, exported) && Identified(fields, merged)
  {
    forall i :: 0 <= i < |merged| ==> Entered(fields, known, exported, merged[i], i)
  }

  /** Of two added entries the earlier was exported first. */
  ghost predicate FirstSeenOrder(fields: seq<string>, known: seq<Yaml>, exported: seq<Yaml>, merged: seq<Yaml>)
    requires Identified(fields, exported) && Identified(fields, merged)
  {
    forall i, j, k ::
      |known| <= i < j < |merged| && 0 <= k < |exported| && Id(fields, exported, k) == Id(fields, merged, j) ==>
      Mentions(fields, exported[..k], Id(fields, merged, i))
  }

  ghost predicate Merged(fields: seq<string>, known: seq<Yaml>, exported: seq<Yaml>, merged: seq<Yaml>) {
    && Unique(fields, known) && Identified(fields, exported) && Unique(fields, merged)
    && |known| <= |merged|
    && (forall i :: 0 <= i < |known| ==> Id(fields, merged, i) == Id(fields, known, i))
    && (forall k :: 0 <= k < |exported| ==> Mentions(fields, merged, Id(fields, exported, k)))
    && Values(fields, known, exported, merged)
    && FirstSeenOrder(fields, known, exported, merged)
  }

  /** Merging the same export again changes nothing. */
  lemma MergedTwice(fields: seq<string>, known: seq<Yaml>, exported: seq<Yaml>, merged: seq<Yaml>, again: seq<Yaml>)
    requires Merged(fields, known, exported, merged) && Merged(fields, merged, exported, again)
    ensures again == merged
  {
    forall i | 0 <= i < |again|
      ensures i < |merged| && again[i] == merged[i]
    {
      var id := Id(fields, again, i);
      if Mentions(fields, exported, id) {
        var k :| 0 <= k < |exported| && Id(fields, exported, k) == id;
        var j :| 0 <= j < |merged| && Id(fields, merged, j) == id;
        assert Id(fields, again, j) == id;
        assert i == j;
        LatestIsOne(fields, exported, again[i], merged[i]);
      }
    }
    var last := |again| - 1;
    assert |again| > 0 ==> again[last] == again[last] && last < |merged|;
  }

  lemma LatestIsOne(fields: seq<string>, exported: seq<Yaml>, a: Yaml, b: Yaml)
    requires Identified(fields, exported) && IsLatest(fields, exported, a) && IsLatest(fields, exported, b)
    requires ResourceId(fields, a) == ResourceId(fields, b)
    ensures a == b
  {
    var i :| 0 <= i < |exported| && exported[i] == a && LastOf(fields, exported, i);
    var j :| 0 <= j < |exported| && exported[j] == b && LastOf(fields, exported, j);
    assert Id(fields, exported, i) == Id(fields, exported, j);
  }

  // ----- one exported resource -----

  lemma MergedNone(fields: seq<string>, known: seq<Yaml>)
    requires Unique(fields, known)
    ensures Merged(fields, known, [], known)
  {
  }

  lemma MentionsOneMore(fields: seq<string>, values: seq<Yaml>, v: Yaml, id: Identity)
    requires Identified(fields, values) && ResourceId(fields, v).Ok?
    ensures Identified(fields, values + [v])
    ensures Mentions(fields, values + [v], id) <==> Mentions(fields, values, id) || id == ResourceId(fields, v).value
  {
    var more := values + [v];
    assert forall k :: 0 <= k < |values| ==> more[k] == values[k];
    if Mentions(fields, values, id) {
      var k :| 0 <= k < |values| && Id(fields, values, k) == id;
      assert Id(fields, more, k) == id;
    }
    if id == ResourceId(fields, v).value {
      assert Id(fields, more, |values|) == id;
    }
    if Mentions(fields, more, id) {
      var k :| 0 <= k < |more| && Id(fields, more, k) == id;
      assert k < |values| ==> Id(fields, values, k) == id;
    }
  }

  /** Exporting one more resource makes its value the latest of its identity and leaves the other identities alone. */
  lemma LatestOneMore(fields: seq<string>, exported: seq<Yaml>, v: Yaml, w: Yaml)
    requires Identified(fields, exported) && ResourceId(fields, v).Ok?
    ensures Identified(fields, exported + [v]) && IsLatest(fields, exported + [v], v)
    ensures IsLatest(fields, exported, w) && ResourceId(fields, w) != ResourceId(fields, v) ==>
      IsLatest(fields, exported + [v], w)
  {
    var more := exported + [v];
    assert forall k :: 0 <= k < |exported| ==> more[k] == exported[k];
    assert more[|exported|] == v && LastOf(fields, more, |exported|);
    if IsLatest(fields, exported, w) && ResourceId(fields, w) != ResourceId(fields, v) {
      var k :| 0 <= k < |exported| && exported[k] == w && LastOf(fields, exported, k);
      assert more[k] == w;
      forall j | k < j < |more|
        ensures Id(fields, more, j) != Id(fields, more, k)
      {
        assert j < |exported| ==> Id(fields, more, j) == Id(fields, exported, j);
      }
      assert LastOf(fields, more, k);
    }
  }

  lemma EnteredOneMore(fields: seq<string>, known: seq<Yaml>, exported: seq<Yaml>, v: Yaml, value: Yaml, i: nat)
    requires Identified(fields, exported) && ResourceId(fields, v).Ok? && ResourceId(fields, value).Ok?
    requires value == v ||
      (ResourceId(fields, value) != ResourceId(fields, v) && Entered(fields, known, exported, value, i))
    ensures Identified(fields, exported + [v]) && Entered(fields, known, exported + [v], value, i)
  {
    MentionsOneMore(fields, exported, v, ResourceId(fields, value).value);
    LatestOneMore(fields, exported, v, value);
  }

  /** The entry of an identity is found by its position, and takes the exported value there. */
  lemma MergedReplace(fields: seq<string>, known: seq<Yaml>, exported: seq<Yaml>, merged: seq<Yaml>, v: Yaml, at: nat)
    requires Merged(fields, known, exported, merged) && at < |merged|
    requires ResourceId(fields, v) == Ok(Id(fields, merged, at))
    ensures Merged(fields, known, exported + [v], merged[at := v])
  {
    var more, m := exported + [v], merged[at := v];
    MentionsOneMore(fields, exported, v, []);
    assert forall i :: 0 <= i < |m| ==> ResourceId(fields, m[i]) == ResourceId(fields, merged[i]);
    SameIds(fields, merged, m);
    forall i | 0 <= i < |m|
      ensures Entered(fields, known, more, m[i], i)
    {
      assert i != at ==> Id(fields, merged, i) != Id(fields, merged, at);
      assert Entered(fields, known, exported, merged[i], i);
      EnteredOneMore(fields, known, exported, v, m[i], i);
    }
    forall k | 0 <= k < |more|
      ensures Mentions(fields, m, Id(fields, more, k))
    {
      if k < |exported| {
        assert Id(fields, more, k) == Id(fields, exported, k);
      } else {
        assert Id(fields, m, at) == Id(fields, more, k);
      }
    }
    forall i | |known| <= i < |merged|
      ensures Mentions(fields, exported, Id(fields, merged, i))
    {
      AddedWasExported(fields, known, exported, merged, i);
    }
    OrderOneMore(fields, known, exported, merged, m, v);
  }

  lemma SameIds(fields: seq<string>, a: seq<Yaml>, b: seq<Yaml>)
    requires |a| == |b| && Unique(fields, a)
    requires forall i :: 0 <= i < |a| ==> ResourceId(fields, b[i]) == ResourceId(fields, a[i])
    ensures Unique(fields, b)
    ensures forall i :: 0 <= i < |a| ==> Id(fields, b, i) == Id(fields, a, i)
    ensures forall id :: Mentions(fields, a, id) ==> Mentions(fields, b, id)
  {
    assert forall i :: 0 <= i < |a| ==> Id(fields, b, i) == Id(fields, a, i);
    forall id | Mentions(fields, a, id)
      ensures Mentions(fields, b, id)
    {
      var k :| 0 <= k < |a| && Id(fields, a, k) == id;
      assert Id(fields, b, k) == id;
    }
  }

  /** A resource whose identity is already there does not disturb the order of the added ones. */
  lemma OrderOneMore(fields: seq<string>, known: seq<Yaml>, exported: seq<Yaml>, merged: seq<Yaml>, m: seq<Yaml>,
                     v: Yaml)
    requires Identified(fields, exported) && Identified(fields, merged)
    requires FirstSeenOrder(fields, known, exported, merged)
    requires forall i :: |known| <= i < |merged| ==> Mentions(fields, exported, Id(fields, merged, i))
    requires |m| == |merged| && Identified(fields, m) && Identified(fields, exported + [v])
    requires forall i :: 0 <= i < |m| ==> Id(fields, m, i) == Id(fields, merged, i)
    ensures FirstSeenOrder(fields, known, exported + [v], m)
  {
    var more := exported + [v];
    forall i, j, k | |known| <= i < j < |m| && 0 <= k < |more| && Id(fields, more, k) == Id(fields, m, j)
      ensures Mentions(fields, more[..k], Id(fields, m, i))
    {
      if k < |exported| {
        assert more[..k] == exported[..k] && Id(fields, exported, k) == Id(fields, merged, j);
      } else {
        assert more[..k] == exported;
      }
    }
  }

  lemma AddedWasExported(fields: seq<string>, known: seq<Yaml>, exported: seq<Yaml>, merged: seq<Yaml>, i: nat)
    requires Merged(fields, known, exported, merged) && |known| <= i < |merged|
    ensures Mentions(fields, exported, Id(fields, merged, i))
  {
    assert Entered(fields, known, exported, merged[i], i);
  }

  /** A new identity goes to the end. */
  lemma MergedAppend(fields: seq<string>, known: seq<Yaml>, exported: seq<Yaml>, merged: seq<Yaml>, v: Yaml)
    requires Merged(fields, known, exported, merged)
    requires ResourceId(fields, v).Ok? && !Mentions(fields, merged, ResourceId(fields, v).value)
    ensures Merged(fields, known, exported + [v], merged + [v])
  {
    var more, m := exported + [v], merged + [v];
    var id := ResourceId(fields, v).value;
    MentionsOneMore(fields, exported, v, id);
    MentionsOneMore(fields, merged, v, id);
    assert forall i :: 0 <= i < |merged| ==> Id(fields, m, i) == Id(fields, merged, i);
    assert forall i :: 0 <= i < |merged| ==> Id(fields, merged, i) != id;
    assert Unique(fields, m);
    forall i | 0 <= i < |m|
      ensures Entered(fields, known, more, m[i], i)
    {
      assert i < |merged| ==>
        m[i] == merged[i] && Id(fields, merged, i) != id && Entered(fields, known, exported, merged[i], i);
      EnteredOneMore(fields, known, exported, v, m[i], i);
    }
    forall k | 0 <= k < |more|
      ensures Mentions(fields, m, Id(fields, more, k))
    {
      MentionsOneMore(fields, merged, v, Id(fields, more, k));
      assert k < |exported| ==> Id(fields, more, k) == Id(fields, exported, k);
    }
    AppendOrder(fields, known, exported, merged, v);
  }

  lemma AppendOrder(fields: seq<string>, known: seq<Yaml>, exported: seq<Yaml>, merged: seq<Yaml>, v: Yaml)
    requires Merged(fields, known, exported, merged)
    requires ResourceId(fields, v).Ok? && !Mentions(fields, merged, ResourceId(fields, v).value)
    requires Identified(fields, exported + [v]) && Identified(fields, merged + [v])
    ensures FirstSeenOrder(fields, known, exported + [v], merged + [v])
  {
    var more, m := exported + [v], merged + [v];
    forall i, j, k | |known| <= i < j < |m| && 0 <= k < |more| && Id(fields, more, k) == Id(fields, m, j)
      ensures Mentions(fields, more[..k], Id(fields, m, i))
    {
      assert Id(fields, m, i) == Id(fields, merged, i);
      assert Entered(fields, known, exported, merged[i], i);
      if k < |exported| {
        assert Id(fields, more, k) == Id(fields, exported, k);
        assert Mentions(fields, merged, Id(fields, exported, k));
        assert more[..k] == exported[..k];
        if j < |merged| {
          assert Id(fields, m, j) == Id(fields, merged, j);
        }
      } else {
        assert more[..k] == exported;
      }
    }
  }

  // ----- the merge -----

  /** Where each identity of the existing entries stands; two entries of one identity are refused. */
  method IndexKnown(fields: seq<string>, known: seq<Yaml>) returns (r: Result<map<Identity, nat>, MergeError>)
    ensures r.Ok? <==> Unique(fields, known)
    ensures r.Ok? ==> Placed(fields, known, r.value)
  {
    var positions: map<Identity, nat> := map[];
    for index := 0 to |known|
      invariant Unique(fields, known[..index])
      invariant Placed(fields, known[..index], positions)
    {
      var id := ResourceId(fields, known[index]);
      if id.Err? {
        return Err(id.error);
      }
      if id.value in positions {
        DuplicateFound(fields, known, index, positions);
        return Err(Duplicate);
      }
      PlacedOneMore(fields, known[..index], positions, known[index]);
      assert known[..index + 1] == known[..index] + [known[index]];
      positions := positions[id.value := index];
    }
    assert known[..|known|] == known;
    return Ok(positions);
  }

  method MergeOne(fields: seq<string>, merged: seq<Yaml>, positions: map<Identity, nat>, v: Yaml,
                  ghost known: seq<Yaml>, ghost exported: seq<Yaml>)
    returns (merged': seq<Yaml>, positions': map<Identity, nat>)
    requires ResourceId(fields, v).Ok?
    requires Merged(fields, known, exported, merged) && Placed(fields, merged, positions)
    ensures Merged(fields, known, exported + [v], merged') && Placed(fields, merged', positions')
  {
    var id := ResourceId(fields, v).value;
    if id in positions {
      merged', positions' := merged[positions[id] := v], positions;
      MergedReplace(fields, known, exported, merged, v, positions[id]);
      assert forall i :: 0 <= i < |merged| ==> Id(fields, merged', i) == Id(fields, merged, i);
    } else {
      merged', positions' := merged + [v], positions[id := |merged|];
      MergedAppend(fields, known, exported, merged, v);
      PlacedOneMore(fields, merged, positions, v);
    }
  }

  method MergeValues(fields: seq<string>, known: seq<Yaml>,
                     exported: seq<Yaml>) returns (r: Result<seq<Yaml>, MergeError>)
    ensures r.Ok? <==> Unique(fields, known) && Identified(fields, exported)
    ensures r.Ok? ==> Merged(fields, known, exported, r.value)
  {
    var index := IndexKnown(fields, known);
    if index.Err? {
      return Err(index.error);
    }
    var merged, positions := known, index.value;
    MergedNone(fields, known);
    for n := 0 to |exported|
      invariant Merged(fields, known, exported[..n], merged)
      invariant Placed(fields, merged, positions)
    {
      var id := ResourceId(fields, exported[n]);
      if id.Err? {
        return Err(id.error);
      }
      merged, positions := MergeOne(fields, merged, positions, exported[n], known, exported[..n]);
      assert exported[..n + 1] == exported[..n] + [exported[n]];
    }
    assert exported[..|exported|] == exported;
    return Ok(merged);
  }

  /** The dictionary knows exactly where each identity stands. */
  ghost predicate Placed(fields: seq<string>, values: seq<Yaml>, positions: map<Identity, nat>) {
    && Identified(fields, values)
    && (forall id :: id in positions ==> positions[id] < |values| && Id(fields, values, positions[id]) == id)
    && (forall i :: 0 <= i < |values| ==> Id(fields, values, i) in positions)
  }

  lemma PlacedOneMore(fields: seq<string>, values: seq<Yaml>, positions: map<Identity, nat>, v: Yaml)
    requires Unique(fields, values) && Placed(fields, values, positions)
    requires ResourceId(fields, v).Ok? && ResourceId(fields, v).value !in positions
    ensures Unique(fields, values + [v])
    ensures Placed(fields, values + [v], positions[ResourceId(fields, v).value := |values|])
  {
    var more := values + [v];
    assert forall i :: 0 <= i < |values| ==> more[i] == values[i];
    assert forall i :: 0 <= i < |values| ==> Id(fields, more, i) == Id(fields, values, i);
  }

  lemma DuplicateFound(fields: seq<string>, known: seq<Yaml>, index: nat, positions: map<Identity, nat>)
    requires index < |known| && Placed(fields, known[..index], positions)
    requires ResourceId(fields, known[index]).Ok? && ResourceId(fields, known[index]).value in positions
    ensures !Unique(fields, known)
  {
    var at := positions[ResourceId(fields, known[index]).value];
    assert known[..index][at] == known[at];
    assert Identified(fields, known) ==> Id(fields, known, at) == Id(fields, known, index);
  }

  // ----- the document -----

  const LOCAL_NODE := Dict(map["node" := Str(".local")])

  /** A missing file or an empty one counts as a document with the local node only. */
  function Base(existing: Yaml): Yaml {
    if existing == Null then Dict(map["version" := Num(4), "content" := List([LOCAL_NODE])]) else existing
  }

  predicate IsNode(node: Yaml) {
    node.Dict? && "node" in node.fields && node.fields["node"].Str?
  }

  predicate IsDocument(d: Yaml) {
    && d.Dict? && Lookup(d.fields, "version") == Some(Num(4))
    && "content" in d.fields && d.fields["content"].List?
    && forall i :: 0 <= i < |d.fields["content"].items| ==> IsNode(d.fields["content"].items[i])
  }

  /** The nodes; a document without any gets the local one. */
  function Nodes(d: Yaml): (nodes: seq<Yaml>)
    requires IsDocument(d)
    ensures nodes != [] && forall i :: 0 <= i < |nodes| ==> IsNode(nodes[i])
  {
    var content := d.fields["content"].items;
    if content == [] then [LOCAL_NODE] else content
  }

  /** The section of the first node; a missing one is empty. */
  function Section(d: Yaml, resource: string): Yaml
    requires IsDocument(d)
  {
    var node := Nodes(d)[0].fields;
    if resource in node then node[resource] else List([])
  }

  function WithSection(d: Yaml, resource: string, values: seq<Yaml>): Yaml
    requires IsDocument(d)
  {
    var nodes := Nodes(d);
    Dict(d.fields["content" := List(nodes[0 := Dict(nodes[0].fields[resource := List(values)])])])
  }

  /** The merge is possible. */
  ghost predicate Mergeable(existing: Yaml, resource: string, exported: seq<Yaml>)
    requires resource in RESOURCE_IDS
  {
    var d, fields := Base(existing), RESOURCE_IDS[resource];
    && IsDocument(d) && Section(d, resource).List?
    && Unique(fields, Section(d, resource).items) && Identified(fields, exported)
  }

  /** What the merge makes of the document. */
  ghost predicate MergesTo(existing: Yaml, resource: string, exported: seq<Yaml>, result: Yaml)
    requires resource in RESOURCE_IDS
  {
    && Mergeable(existing, resource, exported)
    && IsDocument(result) && Section(result, resource).List?
    && Merged(RESOURCE_IDS[resource], Section(Base(existing), resource).items, exported,
      Section(result, resource).items)
    && result == WithSection(Base(existing), resource, Section(result, resource).items)
  }

  lemma SectionWritten(d: Yaml, resource: string, values: seq<Yaml>)
    requires IsDocument(d) && resource in RESOURCE_IDS
    ensures var r := WithSection(d, resource, values);
      && IsDocument(r) && Section(r, resource) == List(values)
      && Nodes(r) == Nodes(d)[0 := Dict(Nodes(d)[0].fields[resource := List(values)])]
  {
    NotNode(resource);
    var node := Dict(Nodes(d)[0].fields[resource := List(values)]);
    assert IsNode(node);
  }

  lemma NotNode(resource: string)
    requires resource in RESOURCE_IDS
    ensures resource != "node"
  {
    assert "node" !in RESOURCE_IDS;
  }

  /** An export is a mapping of one supported section to a list. */
  method ReadExport(flat: Yaml) returns (r: Result<(string, seq<Yaml>), MergeError>)
    ensures r.Ok? ==> r.value.0 in RESOURCE_IDS && flat == Dict(map[r.value.0 := List(r.value.1)])
    ensures r.Err? ==>
      forall resource, values :: resource in RESOURCE_IDS ==> flat != Dict(map[resource := List(values)])
  {
    if !flat.Dict? || |flat.fields| != 1 {
      return Err(BadExport);
    }
    var resource :| resource in flat.fields;
    assert flat.fields.Keys == {resource} by {
      assert |flat.fields.Keys - {resource}| == 0;
    }
    if resource !in RESOURCE_IDS {
      return Err(Unsupported);
    }
    if !flat.fields[resource].List? {
      return Err(BadSection);
    }
    return Ok((resource, flat.fields[resource].items));
  }

  method MergeExport(existing: Yaml, resource: string, exported: seq<Yaml>) returns (r: Result<Yaml, MergeError>)
    requires resource in RESOURCE_IDS
    ensures r.Ok? <==> Mergeable(existing, resource, exported)
    ensures r.Ok? ==> MergesTo(existing, resource, exported, r.value)
  {
    var d := Base(existing);
    if !d.Dict? || Lookup(d.fields, "version") != Some(Num(4)) {
      return Err(NotIac);
    }
    if !IsDocument(d) {
      return Err(BadContent);
    }
    var known := Section(d, resource);
    if !known.List? {
      return Err(BadOldSection);
    }
    var merged := MergeValues(RESOURCE_IDS[resource], known.items, exported);
    if merged.Err? {
      return Err(merged.error);
    }
    SectionWritten(d, resource, merged.value);
    return Ok(WithSection(d, resource, merged.value));
  }

  /** The values of the section, as the document holds them or not. */
  ghost predicate Holds(d: Yaml, resource: string, values: seq<Yaml>) {
    && d.Dict? && "content" in d.fields && d.fields["content"].List?
    && if d.fields["content"].items == [] then values == [] else
       var node := d.fields["content"].items[0];
       node.Dict? && if resource in node.fields then node.fields[resource] == List(values) else values == []
  }

  /** A merge into an existing document: which field of which node it rewrites, and with what. */
  lemma DocumentMeans(existing: Yaml, resource: string, exported: seq<Yaml>, result: Yaml, known: seq<Yaml>,
                      merged: seq<Yaml>)
    requires resource in RESOURCE_IDS && MergesTo(existing, resource, exported, result)
    requires existing != Null && Holds(existing, resource, known) && Holds(result, resource, merged)
    ensures Merged(RESOURCE_IDS[resource], known, exported, merged)
    ensures var nodes := existing.fields["content"].items;
      var first := if nodes == [] then map["node" := Str(".local")] else nodes[0].fields;
      result == Dict(existing.fields["content" :=
        List([Dict(first[resource := List(merged)])] + if nodes == [] then [] else nodes[1..])])
  {
    SectionWritten(existing, resource, Section(result, resource).items);
    var nodes := Nodes(existing);
    var node := Dict(nodes[0].fields[resource := List(merged)]);
    assert nodes[0 := node] == [node] + nodes[1..];
  }

  /** A missing or empty document counts as one with an empty local node, of version 4. */
  lemma EmptyDocumentMeans(resource: string, exported: seq<Yaml>, result: Yaml)
    requires resource in RESOURCE_IDS && MergesTo(Null, resource, exported, result)
    ensures MergesTo(Dict(map["version" := Num(4), "content" := List([])]), resource, exported, result)
    ensures result.Dict? && Lookup(result.fields, "version") == Some(Num(4))
  {
    var blank := Dict(map["version" := Num(4), "content" := List([])]);
    assert Nodes(blank) == Nodes(Base(Null));
    var values := Section(result, resource).items;
    assert WithSection(blank, resource, values).fields == WithSection(Base(Null), resource, values).fields;
  }

  /** What a merge asks of the document and the export. */
  lemma MergeableMeans(existing: Yaml, resource: string, exported: seq<Yaml>)
    requires resource in RESOURCE_IDS && existing != Null
    ensures Mergeable(existing, resource, exported) <==>
      && existing.Dict? && "version" in existing.fields && existing.fields["version"] == Num(4)
      && "content" in existing.fields && existing.fields["content"].List?
      && (forall node :: node in existing.fields["content"].items ==>
            node.Dict? && "node" in node.fields && node.fields["node"].Str?)
      && Identified(RESOURCE_IDS[resource], exported)
      && exists known :: Holds(existing, resource, known) && Unique(RESOURCE_IDS[resource], known)
  {
    if IsDocument(existing) {
      NotNode(resource);
      var section := Section(existing, resource);
      assert section.List? ==> Holds(existing, resource, section.items);
      assert forall known :: Holds(existing, resource, known) ==> section == List(known);
    }
  }

  /** Other sections of the node, the other nodes and the rest of the document stay as they were. */
  lemma OthersKept(existing: Yaml, resource: string, exported: seq<Yaml>, result: Yaml)
    requires resource in RESOURCE_IDS && MergesTo(existing, resource, exported, result)
    ensures var d := Base(existing);
      && (forall f :: f != "content" ==> Lookup(result.fields, f) == Lookup(d.fields, f))
      && |Nodes(result)| == |Nodes(d)|
      && (forall i :: 1 <= i < |Nodes(d)| ==> Nodes(result)[i] == Nodes(d)[i])
      && (forall s :: s != resource ==> Lookup(Nodes(result)[0].fields, s) == Lookup(Nodes(d)[0].fields, s))
  {
    SectionWritten(Base(existing), resource, Section(result, resource).items);
  }

  /** The same export can always be merged again, and then changes nothing. */
  lemma MergeTwice(existing: Yaml, resource: string, exported: seq<Yaml>, result: Yaml, again: Yaml)
    requires resource in RESOURCE_IDS && MergesTo(existing, resource, exported, result)
    ensures Mergeable(result, resource, exported)
    ensures MergesTo(result, resource, exported, again) ==> again == result
  {
    if MergesTo(result, resource, exported, again) {
      MergedTwice(RESOURCE_IDS[resource], Section(Base(existing), resource).items, exported,
        Section(result, resource).items, Section(again, resource).items);
      RewriteSame(result, resource);
    }
  }

  lemma RewriteSame(d: Yaml, resource: string)
    requires IsDocument(d) && d.fields["content"].items != [] && resource in Nodes(d)[0].fields &&
      Section(d, resource).List?
    ensures WithSection(d, resource, Section(d, resource).items) == d
  {
    var nodes := Nodes(d);
    assert nodes[0].fields[resource := nodes[0].fields[resource]] == nodes[0].fields;
    assert nodes[0 := nodes[0]] == nodes;
    assert d.fields["content" := d.fields["content"]] == d.fields;
  }
}
