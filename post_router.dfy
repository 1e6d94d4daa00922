/** The post endpoints (a router the application does not mount): create,
    read one, update and delete, with the author-or-admin check on the
    last two. */
module PostRouter {
  import opened Basics
  import opened JsValues
  import opened Http
  import opened Schema

  /** The fields a post request body may carry. */
  datatype PostBody = PostBody(title: Json, content: Json, imgUrl: Json)

  /** The create check: title and content must be non-empty strings. */
  function CreateErrors(body: PostBody): (errors: seq<string>)
    ensures errors == [] <==> body.title.Str? && body.title.s != "" && body.content.Str? && body.content.s != ""
    ensures "title" in errors <==> !(body.title.Str? && body.title.s != "")
    ensures "content" in errors <==> !(body.content.Str? && body.content.s != "")
  {
    (if !Truthy(body.title) || !body.title.Str? then ["title"] else [])
    + (if !Truthy(body.content) || !body.content.Str? then ["content"] else [])
  }

  /** The update check: title and content must be strings, possibly empty. */
  function UpdateErrors(body: PostBody): (errors: seq<string>)
    ensures errors == [] <==> body.title.Str? && body.content.Str?
    ensures "title" in errors <==> !body.title.Str?
    ensures "content" in errors <==> !body.content.Str?
  {
    (if !body.title.Str? then ["title"] else [])
    + (if !body.content.Str? then ["content"] else [])
  }

  /** POST / of the post router. `newId` is the identifier the database assigns. */
  method Create(session: Option<SessionUser>, body: PostBody, posts: map<Id, Post>, newId: Id)
    returns (resp: Response<Post>, posts': map<Id, Post>)
    requires newId !in posts
    ensures resp.status != 201 ==> posts' == posts
    ensures session.None? ==> resp == Unauthorized()
    ensures session.Some? && CreateErrors(body) != [] ==> resp == InvalidFields(CreateErrors(body))
    ensures session.Some? && CreateErrors(body) == [] && CastString(body.imgUrl).Err? ==>
              resp == Response(400, Text(DatabaseErrorText))
    ensures resp.status == 201 <==> session.Some? && CreateErrors(body) == [] && CastString(body.imgUrl).Ok?
    ensures resp.status == 201 ==>
              && resp.body == Payload(Post(body.title.s, body.content.s, CastString(body.imgUrl).value, session.value.id))
              && posts' == posts[newId := resp.body.value]
  {
    posts' := posts;
    if session.None? {
      return Unauthorized(), posts';
    }
    var errors := CreateErrors(body);
    if |errors| > 0 {
      return InvalidFields(errors), posts';
    }
    var imgUrl := CastString(body.imgUrl);
    if imgUrl.Err? {
      return Response(400, Text(DatabaseErrorText)), posts';
    }
    var p := Post(body.title.s, body.content.s, imgUrl.value, session.value.id);
    var saved := SavePost(posts, newId, p);
    posts' := saved.value;
    resp := Response(201, Payload(p));
  }

  /** GET /:id of the post router */
  function GetOne(id: string, isValidId: string -> bool, posts: map<Id, Post>): (resp: Response<Post>)
    ensures resp.status == 200 <==> isValidId(id) && id in posts
    ensures resp.status == 200 ==> resp.body == Payload(posts[id])
    ensures resp.status != 200 ==> resp == NotFound(id)
  {
    if !isValidId(id) || id !in posts then NotFound(id) else Response(200, Payload(posts[id]))
  }

  /** The author of the post stored under `id`, if there is one. */
  function AuthorOf(posts: map<Id, Post>, id: Id): Option<Id>
  {
    if id in posts then Some(posts[id].author) else None
  }

  /** The 401 / 404 / 403 checks shared by update and delete. */
  function Guard(session: Option<SessionUser>, id: string, isValidId: string -> bool, posts: map<Id, Post>): Option<Response<Post>>
  {
    OwnedRecordGuard(session, isValidId(id), id, AuthorOf(posts, id))
  }

  /** PUT /:id of the post router. The update replaces title, content and image
      together and runs no validators, so empty strings are stored. An
      omitted image is dropped from the update and the stored one stays;
      `null` clears it. */
  method Update(session: Option<SessionUser>, id: string, body: PostBody, isValidId: string -> bool, posts: map<Id, Post>)
    returns (resp: Response<Post>, posts': map<Id, Post>)
    ensures resp.status != 200 ==> posts' == posts
    ensures Guard(session, id, isValidId, posts).Some? ==> resp == Guard(session, id, isValidId, posts).value
    ensures Guard(session, id, isValidId, posts).None? && UpdateErrors(body) != [] ==> resp == InvalidFields(UpdateErrors(body))
    ensures resp.status == 200 <==>
              Guard(session, id, isValidId, posts).None? && UpdateErrors(body) == [] && CastString(body.imgUrl).Ok?
    ensures resp.status == 200 ==>
              && resp.body == Payload(Post(body.title.s, body.content.s,
                                           if body.imgUrl.Undefined? then posts[id].imgUrl else CastString(body.imgUrl).value,
                                           posts[id].author))
              && posts' == posts[id := resp.body.value]
    ensures resp.status == 200 && body.imgUrl.Undefined? ==> posts'[id].imgUrl == posts[id].imgUrl
    ensures Guard(session, id, isValidId, posts).None? && UpdateErrors(body) == [] && resp.status != 200 ==>
              resp == Response(400, Text(DatabaseErrorText))
    ensures resp.status !in {200, 401, 403, 404} ==> resp.status == 400
  {
    posts' := posts;
    var guard := Guard(session, id, isValidId, posts);
    if guard.Some? {
      return guard.value, posts';
    }
    var errors := UpdateErrors(body);
    if |errors| > 0 {
      return InvalidFields(errors), posts';
    }
    var imgUrl := CastString(body.imgUrl);
    if imgUrl.Err? {
      return Response(400, Text(DatabaseErrorText)), posts';
    }
    // An undefined key is dropped from the update, so the stored image stays.
    var image := if body.imgUrl.Undefined? then posts[id].imgUrl else imgUrl.value;
    var p := posts[id].(title := body.title.s, content := body.content.s, imgUrl := image);
    posts' := posts[id := p];
    resp := Response(200, Payload(p));
  }

  /** DELETE /:id of the post router */
  method Delete(session: Option<SessionUser>, id: string, isValidId: string -> bool, posts: map<Id, Post>)
    returns (resp: Response<Post>, posts': map<Id, Post>)
    ensures Guard(session, id, isValidId, posts).Some? ==>
              resp == Guard(session, id, isValidId, posts).value && posts' == posts
    ensures Guard(session, id, isValidId, posts).None? ==>
              resp == Response(204, NoBody) && posts' == posts - {id} && |posts'| == |posts| - 1
  {
    var guard := Guard(session, id, isValidId, posts);
    if guard.Some? {
      return guard.value, posts;
    }
    posts' := posts - {id};
    resp := Response(204, NoBody);
  }
}
