/** Item identifiers: a kind and a full id, whose chunks are separated by slashes. */
module Oids {
  import opened Text

  datatype ItemKind = Unit | Sensor | Lvar | Lmacro

  function KindName(kind: ItemKind): (name: string)
    ensures ':' !in name && '/' !in name
    ensures name != "+" && name != "?"
  {
    match kind
    case Unit => "unit"
    case Sensor => "sensor"
    case Lvar => "lvar"
    case Lmacro => "lmacro"
  }

  /** What the kinds are called in texts. */
  lemma KindNames()
    ensures KindName(Unit) == "unit" && KindName(Sensor) == "sensor"
    ensures KindName(Lvar) == "lvar" && KindName(Lmacro) == "lmacro"
  {
  }

  lemma KindNameInjective(a: ItemKind, b: ItemKind)
    requires KindName(a) == KindName(b)
    ensures a == b
  {
    assert KindName(a)[1] == KindName(b)[1];
    assert |KindName(a)| == |KindName(b)|;
  }

  /** The slash-separated chunks of a full id; there is always at least one. */
  type Chunks = path: seq<string> | path != [] witness [""]

  datatype OID = OID(kind: ItemKind, path: Chunks) {

    function FullId(): string {
      Join(path, '/')
    }

    function AsString(): string {
      KindName(kind) + ":" + FullId()
    }

    function AsPath(): string {
      KindName(kind) + "/" + FullId()
    }
  }

  /** A full id is split into its chunks when an OID is parsed, so no chunk holds a slash. */
  ghost predicate Parsed(oid: OID) {
    forall c :: c in oid.path ==> '/' !in c
  }

  lemma FullIdSplits(oid: OID)
    requires Parsed(oid)
    ensures Split(oid.FullId(), '/') == oid.path
  {
    SplitJoin(oid.path, '/');
  }
}
