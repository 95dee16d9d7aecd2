/**
 * The early in-memory item store: a hash map from id to item and an id
 * counter that starts at 1 and is post-incremented for each added item.
 */
module ItemRepository {
  import opened Common
  import opened Text
  import opened Ordering
  import opened Items

  class InMemoryItems {
    var allItems: map<Id, Item>
    var id: Id

    /** Every stored item sits under its own id, below the counter. */
    ghost predicate Valid()
      reads this
    {
      id >= 1 && KeyedById(allItems, id)
    }

    constructor ()
      ensures Valid()
      ensures allItems == map[] && id == 1
    {
      allItems := map[];
      id := 1;
    }

    /** Stores the item under the next id, owned by `userId` whatever owner it carried. */
    method AddItem(userId: Id, item: Item) returns (r: Item)
      requires Valid()
      modifies this
      ensures Valid()
      ensures r == item.(id := old(id), owner := userId)
      ensures allItems == old(allItems)[old(id) := r] && id == old(id) + 1
    {
      r := item.(id := id, owner := userId);
      id := id + 1;
      allItems := allItems[r.id := r];
    }

    /**
     * Fails `NotFound` or `IllegalEntityAccess` leaving the map as it was;
     * otherwise patches the stored item and returns it.
     */
    method UpdateItem(itemId: Id, userId: Id, patch: ItemPatch) returns (r: Result<Item>)
      requires Valid()
      modifies this
      ensures Valid()
      ensures id == old(id)
      ensures CheckItemOwner(old(allItems), itemId, userId).Err? ==>
        r == Err(CheckItemOwner(old(allItems), itemId, userId).error) && allItems == old(allItems)
      ensures CheckItemOwner(old(allItems), itemId, userId).Ok? ==>
        r == Ok(PatchItem(old(allItems)[itemId], patch)) && allItems == old(allItems)[itemId := r.value]
    {
      var checked := CheckItemOwner(allItems, itemId, userId);
      if checked.Err? {
        return Err(checked.error);
      }
      var updated := PatchItem(checked.value, patch);
      allItems := allItems[itemId := updated];
      r := GetItemById(itemId);
    }

    /** Removes exactly that key after the existence and owner checks; on failure nothing changes. */
    method DeleteItem(itemId: Id, userId: Id) returns (r: Outcome)
      requires Valid()
      modifies this
      ensures Valid()
      ensures id == old(id)
      ensures CheckItemOwner(old(allItems), itemId, userId).Err? ==>
        r == Fail(CheckItemOwner(old(allItems), itemId, userId).error) && allItems == old(allItems)
      ensures CheckItemOwner(old(allItems), itemId, userId).Ok? ==>
        r == Pass && allItems == old(allItems) - {itemId}
    {
      var checked := CheckItemOwner(allItems, itemId, userId);
      if checked.Err? {
        return Fail(checked.error);
      }
      allItems := allItems - {itemId};
      r := Pass;
    }

    /** The stored item, or `NotFound`. */
    function GetItemById(itemId: Id): (r: Result<Item>)
      reads this
      ensures r.Ok? <==> itemId in allItems
      ensures r.Ok? ==> r.value == allItems[itemId]
      ensures r.Err? ==> r.error == NotFound
    {
      if itemId in allItems then Ok(allItems[itemId]) else Err(NotFound)
    }

    /**
     * Exactly the stored items owned by `userId`, each once. The source's order
     * is the `HashMap`'s bucket order, which this contract leaves open.
     */
    function GetAllItemsByUserId(userId: Id): (r: seq<Item>)
      reads this
      requires Valid()
      ensures forall k :: k in allItems && allItems[k].owner == userId ==> allItems[k] in r
      ensures forall i :: 0 <= i < |r| ==> r[i].owner == userId && r[i].id in allItems && allItems[r[i].id] == r[i]
      ensures forall i, j :: 0 <= i < j < |r| ==> r[i].id != r[j].id
    {
      FilterRows(allItems, id, (i: Item) => i.owner == userId);
      Filter(Rows(allItems, id), (i: Item) => i.owner == userId)
    }

    /**
     * Empty for blank text; otherwise exactly the stored available items whose
     * lower-cased name or description contains the lower-cased text, each
     * once, in an order this contract leaves open.
     */
    function GetItemsByText(text: string): (r: seq<Item>)
      reads this
      requires Valid()
      ensures IsBlank(text) ==> r == []
      ensures !IsBlank(text) ==> forall k :: k in allItems && MatchesText(allItems[k], text) ==> allItems[k] in r
      ensures forall i :: 0 <= i < |r| ==> MatchesText(r[i], text) && r[i].id in allItems && allItems[r[i].id] == r[i]
      ensures forall i, j :: 0 <= i < j < |r| ==> r[i].id != r[j].id
    {
      if IsBlank(text) then []
      else
        FilterRows(allItems, id, (i: Item) => MatchesText(i, text));
        Filter(Rows(allItems, id), (i: Item) => MatchesText(i, text))
    }
  }

  /** Ids 1, 2, 3 in call order, each item owned by the adding user whatever owner it carried. */
  method SequentialIdsScenario() returns (a: Item, b: Item, c: Item)
    ensures a.id == 1 && b.id == 2 && c.id == 3
    ensures a.owner == 7 && b.owner == 7 && c.owner == 8
  {
    var repo := new InMemoryItems();
    a := repo.AddItem(7, Item(0, "drill", "cordless drill", true, 99, None));
    b := repo.AddItem(7, Item(0, "saw", "hand saw", true, 99, None));
    c := repo.AddItem(8, Item(0, "ladder", "folding ladder", false, 7, None));
  }
}
