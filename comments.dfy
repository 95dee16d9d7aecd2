/**
 * Comments on items and their field-copy mapper. `None` stands for a Java
 * `null`: a comment built from a request has no id until it is saved.
 */
module CommentMapper {
  import opened Common
  import opened Users

  datatype Comment = Comment(id: Option<Id>, text: string, author: User, itemId: Id, created: Option<Timestamp>)

  datatype CommentDto = CommentDto(id: Option<Id>, text: string, authorName: Option<string>, itemId: Option<Id>, created: Option<Timestamp>)

  /** Copies id, text, item id and creation time, and names the author. */
  function ToCommentDto(c: Comment): (r: CommentDto)
    ensures r.id == c.id && r.text == c.text && r.created == c.created
    ensures r.authorName == Some(c.author.name) && r.itemId == Some(c.itemId)
  {
    CommentDto(c.id, c.text, Some(c.author.name), Some(c.itemId), c.created)
  }

  /**
   * Copies id, text and creation time from the dto; author and item come from
   * the arguments, so the dto's author name and item id are ignored.
   */
  function ToComment(dto: CommentDto, author: User, itemId: Id): (r: Comment)
    ensures r.id == dto.id && r.text == dto.text && r.created == dto.created
    ensures r.author == author && r.itemId == itemId
  {
    Comment(dto.id, dto.text, author, itemId, dto.created)
  }

  /** Mapping a dto in and back out keeps its id, text and time and fills in author and item. */
  lemma DtoRoundTrip(dto: CommentDto, author: User, itemId: Id)
    ensures ToCommentDto(ToComment(dto, author, itemId)) == dto.(authorName := Some(author.name), itemId := Some(itemId))
  {
  }

  /** Mapping a comment out and back in with its own author and item gives the comment. */
  lemma CommentRoundTrip(c: Comment)
    ensures ToComment(ToCommentDto(c), c.author, c.itemId) == c
  {
  }

  /** The dto's author name and item id have no effect on the comment. */
  lemma ToCommentIgnoresDtoAuthorAndItem(dto: CommentDto, author: User, itemId: Id, name: Option<string>, item: Option<Id>)
    ensures ToComment(dto.(authorName := name, itemId := item), author, itemId) == ToComment(dto, author, itemId)
  {
  }
}
