/**
 * Items of the catalog and the rules both item stores share: who may change
 * an item, the patch rule of an update, and the text-search predicate.
 */
module Items {
  import opened Common
  import opened Text
  import opened Ordering

  datatype Item = Item(id: Id, name: string, description: string, available: bool, owner: Id, requestId: Option<Id>)

  /** The fields of an update request; `None` stands for a Java `null`. */
  datatype ItemPatch = ItemPatch(name: Option<string>, description: Option<string>, available: Option<bool>)

  /**
   * Name and description are replaced only by present, non-blank text, the
   * availability flag by any present value; id, owner and request never change.
   */
  function PatchItem(item: Item, patch: ItemPatch): (r: Item)
    ensures r.id == item.id && r.owner == item.owner && r.requestId == item.requestId
    ensures r.name != item.name ==> patch.name == Some(r.name) && !IsBlank(r.name)
    ensures patch.name.Some? && !IsBlank(patch.name.value) ==> r.name == patch.name.value
    ensures r.description != item.description ==> patch.description == Some(r.description) && !IsBlank(r.description)
    ensures patch.description.Some? && !IsBlank(patch.description.value) ==> r.description == patch.description.value
    ensures r.available == (if patch.available.Some? then patch.available.value else item.available)
  {
    var named := if patch.name.Some? && !IsBlank(patch.name.value) then item.(name := patch.name.value) else item;
    var described :=
      if patch.description.Some? && !IsBlank(patch.description.value) then named.(description := patch.description.value)
      else named;
    if patch.available.Some? then described.(available := patch.available.value) else described
  }

  /** Patching twice with the same request gives the same item as patching once. */
  lemma PatchIdempotent(item: Item, patch: ItemPatch)
    ensures PatchItem(PatchItem(item, patch), patch) == PatchItem(item, patch)
  {
  }

  /** An empty patch (every field `null`) leaves the item as it was. */
  lemma EmptyPatchIsIdentity(item: Item)
    ensures PatchItem(item, ItemPatch(None, None, None)) == item
  {
  }

  /**
   * `checkItemOwner`: an absent item fails `NotFound`; an item owned by someone
   * else fails `IllegalEntityAccess`; otherwise the stored item.
   */
  function CheckItemOwner(items: map<Id, Item>, itemId: Id, userId: Id): (r: Result<Item>)
    ensures itemId !in items ==> r == Err(NotFound)
    ensures itemId in items && items[itemId].owner != userId ==> r == Err(IllegalEntityAccess)
    ensures r.Ok? <==> itemId in items && items[itemId].owner == userId
    ensures r.Ok? ==> r.value == items[itemId]
  {
    if itemId !in items then Err(NotFound)
    else if items[itemId].owner != userId then Err(IllegalEntityAccess)
    else Ok(items[itemId])
  }

  /** An available item whose name or description contains `text`, ignoring case. */
  predicate MatchesText(item: Item, text: string) {
    item.available && (ContainsIgnoreCase(item.name, text) || ContainsIgnoreCase(item.description, text))
  }

  /** A keyed item table: every item is stored under its own id, below the next id to assign. */
  ghost predicate KeyedById(items: map<Id, Item>, nextId: Id) {
    forall k :: k in items ==> 1 <= k < nextId && items[k].id == k
  }

  /** The stored rows, in ascending id order, each under its own id. */
  lemma RowsAreStored(items: map<Id, Item>, nextId: Id)
    requires KeyedById(items, nextId)
    ensures forall i :: 0 <= i < |Rows(items, nextId)| ==>
      Rows(items, nextId)[i].id in items && items[Rows(items, nextId)[i].id] == Rows(items, nextId)[i]
    ensures IncreasingBy(Rows(items, nextId), (i: Item) => i.id)
  {
    var rows := Rows(items, nextId);
    var keys := AscendingKeys(items, nextId);
    forall i | 0 <= i < |rows| ensures rows[i].id == keys[i] && keys[i] in items {
      assert keys[i] in keys;
    }
  }

  /** A query over the table selects exactly the matching stored items, in ascending id order. */
  lemma FilterRows(items: map<Id, Item>, nextId: Id, p: Item -> bool)
    requires KeyedById(items, nextId)
    ensures forall k :: k in items && p(items[k]) ==> items[k] in Filter(Rows(items, nextId), p)
    ensures forall i :: 0 <= i < |Filter(Rows(items, nextId), p)| ==>
      Filter(Rows(items, nextId), p)[i].id in items && items[Filter(Rows(items, nextId), p)[i].id] == Filter(Rows(items, nextId), p)[i]
    ensures IncreasingBy(Filter(Rows(items, nextId), p), (i: Item) => i.id)
  {
    var rows := Rows(items, nextId);
    RowsAreStored(items, nextId);
    forall k | k in items && p(items[k]) ensures items[k] in Filter(rows, p) {
      FilterSelects(rows, p, items[k]);
    }
    var r := Filter(rows, p);
    forall i | 0 <= i < |r| ensures r[i].id in items && items[r[i].id] == r[i] {
      var j :| 0 <= j < |rows| && rows[j] == r[i];
    }
    FilterKeepsIncreasing(rows, p, (i: Item) => i.id);
  }
}
