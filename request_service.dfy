/**
 * The request board: item requests stored by the database with identity ids,
 * each shown with the catalog items offered for it.
 */
module ItemRequestService {
  import opened Common
  import opened Ordering
  import opened Paging
  import opened Users
  import opened Items
  import opened ItemRequestMapper
  import opened ItemService

  function CreatedOf(req: ItemRequest): int {
    req.created
  }

  predicate ByRequester(req: ItemRequest, userId: Id) {
    req.requester.Some? && req.requester.value.id == userId
  }

  predicate ByOtherRequester(req: ItemRequest, userId: Id) {
    req.requester.Some? && req.requester.value.id != userId
  }

  /** `findAllByRequesterIdOrderByCreatedDesc`: the user's own requests, newest first. */
  function OwnRequests(requests: seq<ItemRequest>, userId: Id): (r: seq<ItemRequest>)
    ensures forall q {:trigger multiset(r)[q]} :: multiset(r)[q] == if ByRequester(q, userId) then multiset(requests)[q] else 0
    ensures SortedDesc(r, CreatedOf)
  {
    SortDesc(Filter(requests, (q: ItemRequest) => ByRequester(q, userId)), CreatedOf)
  }

  /** `findAllByRequesterIdNotOrderByCreatedDesc`: everybody else's requests, newest first. */
  function OthersRequests(requests: seq<ItemRequest>, userId: Id): (r: seq<ItemRequest>)
    ensures forall q {:trigger multiset(r)[q]} :: multiset(r)[q] == if ByOtherRequester(q, userId) then multiset(requests)[q] else 0
    ensures SortedDesc(r, CreatedOf)
  {
    SortDesc(Filter(requests, (q: ItemRequest) => ByOtherRequester(q, userId)), CreatedOf)
  }

  /** A request is listed for its requester or for everybody else, never for both. */
  lemma OwnAndOthersPartition(requests: seq<ItemRequest>, userId: Id, q: ItemRequest)
    requires q in requests && q.requester.Some?
    ensures q in OwnRequests(requests, userId) <==> q !in OthersRequests(requests, userId)
  {
    assert multiset(requests)[q] > 0;
    assert q in OwnRequests(requests, userId) <==> multiset(OwnRequests(requests, userId))[q] > 0;
    assert q in OthersRequests(requests, userId) <==> multiset(OthersRequests(requests, userId))[q] > 0;
  }

  /** `findById` on the request table. */
  function FindRequest(requests: seq<ItemRequest>, requestId: Id): (r: Option<ItemRequest>)
    ensures r.Some? ==> r.value in requests && r.value.id == Some(requestId)
    ensures r.None? ==> forall q :: q in requests ==> q.id != Some(requestId)
  {
    FirstMatch(requests, (q: ItemRequest) => q.id == Some(requestId))
  }

  /** A request's view with the items offered for it. */
  function WithItems(req: ItemRequest, catalog: ItemCatalog): (r: ItemRequestDtoWithItems)
    reads catalog
    requires catalog.Valid()
    ensures r.id == req.id && r.description == req.description && r.created == req.created
    ensures forall k :: k in catalog.items && catalog.items[k].requestId == req.id ==> catalog.items[k] in r.items
    ensures forall i :: 0 <= i < |r.items| ==>
      r.items[i].requestId == req.id && r.items[i].id in catalog.items && catalog.items[r.items[i].id] == r.items[i]
  {
    ToItemRequestDtoWithItems(req).(items := catalog.GetAllItemsByRequestId(req.id))
  }

  /** The `forEach` that sets each mapped request's item list from the catalog. */
  method AttachItems(rows: seq<ItemRequest>, catalog: ItemCatalog) returns (r: seq<ItemRequestDtoWithItems>)
    requires catalog.Valid()
    ensures |r| == |rows|
    ensures forall i :: 0 <= i < |r| ==> r[i] == WithItems(rows[i], catalog)
  {
    r := seq(|rows|, i requires 0 <= i < |rows| => ToItemRequestDtoWithItems(rows[i]));
    for i := 0 to |r|
      invariant |r| == |rows|
      invariant forall j :: 0 <= j < i ==> r[j] == WithItems(rows[j], catalog)
      invariant forall j :: i <= j < |r| ==> r[j] == ToItemRequestDtoWithItems(rows[j])
    {
      r := r[i := r[i].(items := catalog.GetAllItemsByRequestId(r[i].id))];
    }
  }

  class RequestBoard {
    var requests: seq<ItemRequest>

    /** Row `i` has id `i + 1` and a requester. */
    ghost predicate Valid()
      reads this
    {
      forall i :: 0 <= i < |requests| ==> requests[i].id == Some(i + 1) && requests[i].requester.Some?
    }

    constructor ()
      ensures Valid() && requests == []
    {
      requests := [];
    }

    /**
     * `addRequest`: fails `NotFound` for an unknown user and saves nothing;
     * otherwise saves the request under the next identity id with that user as
     * requester, and returns its id, description and creation time.
     */
    method AddRequest(users: map<Id, User>, request: ItemRequest, userId: Id) returns (r: Result<ItemRequestDtoResponse>)
      requires Valid()
      modifies this
      ensures Valid()
      ensures r.Err? <==> userId !in users
      ensures r.Err? ==> r.error == NotFound && requests == old(requests)
      ensures r.Ok? ==>
        && requests == old(requests) + [request.(id := Some(|old(requests)| + 1), requester := Some(users[userId]))]
        && r.value == ItemRequestDtoResponse(Some(|old(requests)| + 1), request.description, request.created)
    {
      if userId !in users {
        return Err(NotFound);
      }
      var stored := request.(id := Some(|requests| + 1), requester := Some(users[userId]));
      requests := requests + [stored];
      r := Ok(ToItemRequestDtoResponse(stored));
    }

    /** `getAllRequestsByUserId`: the user must exist; the user's requests, newest first, with their items. */
    method GetAllRequestsByUserId(users: map<Id, User>, catalog: ItemCatalog, userId: Id) returns (r: Result<seq<ItemRequestDtoWithItems>>)
      requires catalog.Valid()
      ensures r.Err? <==> userId !in users
      ensures r.Err? ==> r.error == NotFound
      ensures r.Ok? ==> |r.value| == |OwnRequests(requests, userId)|
      ensures r.Ok? ==> forall i :: 0 <= i < |r.value| ==> r.value[i] == WithItems(OwnRequests(requests, userId)[i], catalog)
    {
      if userId !in users {
        return Err(NotFound);
      }
      var views := AttachItems(OwnRequests(requests, userId), catalog);
      r := Ok(views);
    }

    /**
     * `getAllRequests`: the user must exist (`NotFound`), then the page
     * arguments must be valid (`IllegalArgument`); the requested page of
     * everybody else's requests, newest first, with their items.
     */
    method GetAllRequests(users: map<Id, User>, catalog: ItemCatalog, userId: Id, from: int, size: int) returns (r: Result<seq<ItemRequestDtoWithItems>>)
      requires catalog.Valid()
      ensures userId !in users ==> r == Err(NotFound)
      ensures userId in users && MakePage(from, size).Err? ==> r == Err(IllegalArgument)
      ensures r.Ok? <==> userId in users && from >= 0 && size >= 1
      ensures r.Ok? ==>
        var page := Slice(OthersRequests(requests, userId), MakePage(from, size).value);
        |r.value| == |page| && forall i :: 0 <= i < |r.value| ==> r.value[i] == WithItems(page[i], catalog)
    {
      if userId !in users {
        return Err(NotFound);
      }
      var page := MakePage(from, size);
      if page.Err? {
        return Err(page.error);
      }
      var views := AttachItems(Slice(OthersRequests(requests, userId), page.value), catalog);
      r := Ok(views);
    }

    /** `getRequestById`: the user must exist, then the request (`NotFound` for either); the request with its items. */
    method GetRequestById(users: map<Id, User>, catalog: ItemCatalog, requestId: Id, userId: Id) returns (r: Result<ItemRequestDtoWithItems>)
      requires Valid() && catalog.Valid()
      ensures r.Err? <==> userId !in users || !(1 <= requestId <= |requests|)
      ensures r.Err? ==> r.error == NotFound
      ensures r.Ok? ==> r.value == WithItems(requests[requestId - 1], catalog)
      ensures r.Ok? ==> r.value.id == Some(requestId)
    {
      if userId !in users {
        return Err(NotFound);
      }
      var found := FindRequest(requests, requestId);
      FindRequestInTable(requestId);
      if found.None? {
        return Err(NotFound);
      }
      r := Ok(WithItems(found.value, catalog));
    }

    /** In the identity-keyed table, request `k` is found at row `k - 1`. */
    lemma FindRequestInTable(requestId: Id)
      requires Valid()
      ensures FindRequest(requests, requestId) == if 1 <= requestId <= |requests| then Some(requests[requestId - 1]) else None
    {
      if 1 <= requestId <= |requests| {
        FirstMatchAt(requests, (q: ItemRequest) => q.id == Some(requestId), requestId - 1);
      }
    }
  }
}
