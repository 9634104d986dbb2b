/**
 * The HTTP face of the post service: creation refuses a post whose title,
 * content or author is blank; reads, updates and deletes answer 404 for an
 * id that is not in the table.
 */
module PostController {
  import opened Maybe
  import opened Entities
  import Store
  import PostService

  /** The body of a successful delete. */
  const Deleted := "Post Deleted"

  /** The create check: a post with a blank title, content or author is a bad request. */
  predicate Rejected(p: Post)
  {
    Blank(p.title) || Blank(p.content) || Blank(p.author)
  }

  /** A post is accepted exactly when its title, content and author each hold a character above U+0020. */
  lemma AcceptedIff(p: Post)
    ensures !Rejected(p) <==>
      (p.title.Some? && exists i :: 0 <= i < |p.title.value| && p.title.value[i] > ' ')
      && (p.content.Some? && exists i :: 0 <= i < |p.content.value| && p.content.value[i] > ' ')
      && (p.author.Some? && exists i :: 0 <= i < |p.author.value| && p.author.value[i] > ' ')
  {
    BlankIff(p.title);
    BlankIff(p.content);
    BlankIff(p.author);
  }

  /** `.map(ResponseEntity::ok).orElse(ResponseEntity.notFound().build())`. */
  function OkOrNotFound(r: Option<Post>): (resp: Response)
    ensures resp.status == OK <==> r.Some?
    ensures r.Some? ==> resp.body == PostJson(r.value)
    ensures r.None? ==> resp == NotFound
  {
    match r
    case Some(p) => Response(OK, PostJson(p))
    case None => NotFound
  }

  class PostController {
    const service: PostService.PostService

    constructor (service: PostService.PostService)
      ensures this.service == service
    {
      this.service := service;
    }

    /** `GET /api/posts`: the service's listing, newest first. */
    method GetAllPosts() returns (list: seq<Post>)
      ensures multiset(list) == multiset(Store.FindAll(service.posts))
      ensures PostService.NewestFirst(list)
      ensures forall t :: PostService.WithTime(list, t) == PostService.WithTime(Store.FindAll(service.posts), t)
    {
      list := service.GetAllPosts();
    }

    /** `GET /api/posts/{id}`: 200 with the row, or 404. */
    method GetPostById(id: int) returns (resp: Response)
      ensures resp.status == OK <==> id in service.posts
      ensures id in service.posts ==> resp.body == PostJson(service.posts[id])
      ensures id !in service.posts ==> resp == NotFound
    {
      var found := service.GetPostById(id);
      resp := OkOrNotFound(found);
    }

    /** `POST /api/posts`: 400 and nothing stored for a blank field, else 201 with the stored row. */
    method CreatePost(p: Post) returns (resp: Response)
      requires service.Valid()
      modifies service
      ensures service.Valid()
      ensures resp.status == BAD_REQUEST <==> Rejected(p)
      ensures Rejected(p) ==>
        resp == Response(BAD_REQUEST, NoBody) && service.posts == old(service.posts) && service.nextId == old(service.nextId)
      ensures !Rejected(p) ==>
        var saved := p.(id := old(service.nextId));
        resp == Response(CREATED, PostJson(saved)) && service.posts == old(service.posts)[saved.id := saved]
        && service.nextId == old(service.nextId) + 1
    {
      if Blank(p.title) {
        return Response(BAD_REQUEST, NoBody);
      }
      if Blank(p.content) {
        return Response(BAD_REQUEST, NoBody);
      }
      if Blank(p.author) {
        return Response(BAD_REQUEST, NoBody);
      }
      var saved := service.CreatePost(p);
      resp := Response(CREATED, PostJson(saved));
    }

    /** `PUT /api/posts/{id}`: 200 with the row after its title and content changed, or 404 (no blank check). */
    method UpdatePost(id: int, details: Post) returns (resp: Response)
      requires service.Valid()
      modifies service`posts
      ensures service.Valid()
      ensures resp.status == OK <==> id in old(service.posts)
      ensures id in old(service.posts) ==>
        var saved := old(service.posts)[id].(title := details.title, content := details.content);
        resp == Response(OK, PostJson(saved)) && service.posts == old(service.posts)[id := saved]
      ensures id !in old(service.posts) ==> resp == NotFound && service.posts == old(service.posts)
    {
      var updated := service.UpdatePost(id, details);
      resp := OkOrNotFound(updated);
    }

    /** `DELETE /api/posts/{id}`: 200 "Post Deleted" when the row existed, else 404. */
    method DeletePost(id: int) returns (resp: Response)
      requires service.Valid()
      modifies service`posts
      ensures service.Valid()
      ensures resp == if id in old(service.posts) then Response(OK, Message(Deleted)) else NotFound
      ensures service.posts == old(service.posts) - {id}
    {
      var deleted := service.DeletePost(id);
      resp := if deleted then Response(OK, Message(Deleted)) else NotFound;
    }
  }
}
