/**
 * Item requests and their field-copy mapper. The mapper's clock read is the
 * `now` parameter; `None` stands for a Java `null`.
 */
module ItemRequestMapper {
  import opened Common
  import opened Users
  import opened Items

  datatype ItemRequest = ItemRequest(id: Option<Id>, description: string, requester: Option<User>, created: Timestamp)

  /** The incoming request body. */
  datatype ItemRequestDto = ItemRequestDto(id: Option<Id>, description: string)

  /** A request with the items offered for it. */
  datatype ItemRequestDtoWithItems = ItemRequestDtoWithItems(id: Option<Id>, description: string, created: Timestamp, items: seq<Item>)

  datatype ItemRequestDtoResponse = ItemRequestDtoResponse(id: Option<Id>, description: string, created: Timestamp)

  /** Copies id and description, leaves the requester unset, and stamps the current time. */
  function ToItemRequest(dto: ItemRequestDto, now: Timestamp): (r: ItemRequest)
    ensures r.id == dto.id && r.description == dto.description
    ensures r.requester.None? && r.created == now
  {
    ItemRequest(dto.id, dto.description, None, now)
  }

  /** Copies id, description and creation time, with an empty item list. */
  function ToItemRequestDtoWithItems(req: ItemRequest): (r: ItemRequestDtoWithItems)
    ensures r.id == req.id && r.description == req.description && r.created == req.created
    ensures r.items == []
  {
    ItemRequestDtoWithItems(req.id, req.description, req.created, [])
  }

  /** Copies id, description and creation time. */
  function ToItemRequestDtoResponse(req: ItemRequest): (r: ItemRequestDtoResponse)
    ensures r.id == req.id && r.description == req.description && r.created == req.created
  {
    ItemRequestDtoResponse(req.id, req.description, req.created)
  }

  /** Both views of one request agree on id, description and creation time. */
  lemma MappersAgree(req: ItemRequest)
    ensures var a := ToItemRequestDtoWithItems(req); var b := ToItemRequestDtoResponse(req);
      a.id == b.id && a.description == b.description && a.created == b.created
  {
  }

  /** A request body mapped in and straight back out keeps its id and description, stamped `now`. */
  lemma RequestRoundTrip(dto: ItemRequestDto, now: Timestamp)
    ensures ToItemRequestDtoResponse(ToItemRequest(dto, now)) == ItemRequestDtoResponse(dto.id, dto.description, now)
  {
  }

  /** The requester is not part of either view. */
  lemma ViewsIgnoreRequester(req: ItemRequest, requester: Option<User>)
    ensures ToItemRequestDtoResponse(req.(requester := requester)) == ToItemRequestDtoResponse(req)
    ensures ToItemRequestDtoWithItems(req.(requester := requester)) == ToItemRequestDtoWithItems(req)
  {
  }
}
