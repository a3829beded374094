/** Sources and items as shared objects: their identity matters, their contents may change. */
module Items {
  import opened Common
  import opened Oids
  import opened States

  class ItemSource {
    const node: string
    const svc: string
    var destroyed: bool

    constructor (node: string, svc: string)
      ensures this.node == node && this.svc == svc && !destroyed
    {
      this.node, this.svc := node, svc;
      destroyed := false;
    }
  }

  class ItemData {
    const oid: OID
    const source: Option<ItemSource>
    const meta: Option<Value>
    const state: Option<ItemState>  // none for macros
    var enabled: bool

    constructor (oid: OID, source: Option<ItemSource>, meta: Option<Value>, state: Option<ItemState>, enabled: bool)
      ensures this.oid == oid && this.source == source && this.meta == meta && this.state == state &&
        this.enabled == enabled
    {
      this.oid, this.source, this.meta, this.state, this.enabled := oid, source, meta, state, enabled;
    }

    /** The node the item comes from, none for a local item. */
    function Node(): Option<string> {
      if source.Some? then Some(source.value.node) else None
    }
  }

  datatype NodeFilter = LocalNode | RemoteNode(id: string) | RemoteAny

  /** A listing filter; the mask lists and the pattern are seen through what they accept. */
  datatype Filter = Filter(
    included: Option<OID -> bool>,
    excluded: Option<OID -> bool>,
    node: Option<NodeFilter>,
    pattern: Option<OID -> bool>)
  {
    predicate NodeMatches(item: ItemData) {
      match node
      case None => true
      case Some(LocalNode) => item.source.None?
      case Some(RemoteAny) => item.source.Some?
      case Some(RemoteNode(id)) => item.source.Some? && (id == "#" || id == "*" || item.source.value.node == id)
    }

    predicate Matches(item: ItemData) {
      && NodeMatches(item)
      && (pattern.Some? ==> pattern.value(item.oid))
      && (included.Some? ==> included.value(item.oid))
      && (excluded.Some? ==> !excluded.value(item.oid))
    }
  }

  /** What passes a filter, condition by condition. */
  lemma FilterMeans(filter: Filter, item: ItemData)
    ensures filter.Matches(item) <==>
      && (filter.node == Some(LocalNode) ==> item.source.None?)
      && (filter.node == Some(RemoteAny) ==> item.source.Some?)
      && (forall id :: filter.node == Some(RemoteNode(id)) ==>
            item.source.Some? && (item.source.value.node == id || id == "#" || id == "*"))
      && (filter.pattern.Some? ==> filter.pattern.value(item.oid))
      && (filter.included.Some? ==> filter.included.value(item.oid))
      && (filter.excluded.Some? ==> !filter.excluded.value(item.oid))
  {
  }
}
