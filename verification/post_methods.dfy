/**
  The post RPC procedures: a session check, then the repository call, then
  the classification of what the repository returned or threw into RPC
  errors.
 */
module PostMethods {
  import opened Common
  import opened Errors
  import opened PostRepository

  const NotFoundError: Failure := RpcError(NotFound, "Post não encontrado")
  const UpdateLoginError: Failure := RpcError(Unauthorized, "Você precisa estar logado para atualizar um post")
  const UpdateForbiddenError: Failure := RpcError(Forbidden, "Você só pode editar seus próprios posts")
  const DeleteLoginError: Failure := RpcError(Unauthorized, "Você precisa estar logado para deletar um post")
  const DeleteForbiddenError: Failure := RpcError(Forbidden, "Você só pode deletar seus próprios posts")

  /** The shared `catch`: an `Error` whose message is "Unauthorized" becomes
      the given FORBIDDEN error; anything else is rethrown as it is. */
  function CatchOwnerError<T>(o: Outcome<T>, forbidden: Failure): (r: Outcome<T>)
    ensures o.Returned? ==> r == o
    ensures r.Returned? <==> o.Returned?
    ensures o.Threw? && IsError(o.failure) && Message(o.failure) == "Unauthorized" ==> r == Threw(forbidden)
    ensures o.Threw? && !(IsError(o.failure) && Message(o.failure) == "Unauthorized") ==> r == o
  {
    match o
    case Returned(_) => o
    case Threw(f) => if IsError(f) && Message(f) == "Unauthorized" then Threw(forbidden) else o
  }

  /** The `try` body shared by update and delete: a `null` result raises
      NOT_FOUND, a thrown value propagates, a post is passed on. */
  function TryBody(repo: Outcome<Option<Post>>): (r: Outcome<Post>)
    ensures r.Returned? <==> repo.Returned? && repo.value.Some?
    ensures r.Returned? ==> r.value == repo.value.value
    ensures repo == Returned(None) ==> r == Threw(NotFoundError)
    ensures repo.Threw? ==> r == Threw(repo.failure)
  {
    match repo
    case Threw(f) => Threw(f)
    case Returned(None) => Threw(NotFoundError)
    case Returned(Some(p)) => Returned(p)
  }

  /** What `updatePost` makes of the repository's outcome, whatever it was. */
  function HandleUpdate(repo: Outcome<Option<Post>>): (r: Outcome<Post>)
    ensures repo.Returned? && repo.value.Some? ==> r == Returned(repo.value.value)
    ensures repo == Returned(None) ==> r == Threw(NotFoundError)
    ensures repo.Threw? && IsError(repo.failure) && Message(repo.failure) == "Unauthorized" ==>
                r == Threw(UpdateForbiddenError)
    ensures repo.Threw? && !(IsError(repo.failure) && Message(repo.failure) == "Unauthorized") ==>
                r == Threw(repo.failure)
  {
    CatchOwnerError(TryBody(repo), UpdateForbiddenError)
  }

  /** The NOT_FOUND raised inside the `try` passes through the `catch`
      unchanged, and so does every thrown value other than an
      "Unauthorized" `Error`. */
  lemma CatchKeepsOtherErrors<T>(f: Failure, forbidden: Failure)
    requires !(IsError(f) && Message(f) == "Unauthorized")
    ensures CatchOwnerError<T>(Threw(f), forbidden) == Threw(f)
    ensures CatchOwnerError<T>(Threw(NotFoundError), forbidden) == Threw(NotFoundError)
  {
  }

  /** The update request: the post id and the fields to change. */
  datatype UpdateInput = UpdateInput(id: int, name: Option<string>, content: Option<string>)

  /** `const { id, ...data } = input`: everything but the id. */
  function UpdateData(input: UpdateInput): (d: PostPatch)
    ensures d.name == input.name && d.content == input.content
  {
    PostPatch(input.name, input.content)
  }

  /** `updatePost`: the procedure's outcome and the store afterwards. */
  function UpdatePost(session: Option<User>, input: UpdateInput, db: Db): (c: Call<Post>)
    ensures session.None? ==> c == Call(Threw(UpdateLoginError), db)
    ensures session.Some? && input.id !in db.posts ==> c == Call(Threw(NotFoundError), db)
    ensures session.Some? && input.id in db.posts && db.posts[input.id].createdById != session.value.id ==>
                c == Call(Threw(UpdateForbiddenError), db)
    ensures session.Some? && input.id in db.posts && db.posts[input.id].createdById == session.value.id ==>
                var p := ApplyPatch(db.posts[input.id], UpdateData(input));
                  c == Call(Returned(p), Db(db.posts[input.id := p], db.comments))
  {
    if session.None? then Call(Threw(UpdateLoginError), db)
    else
      var call := PostRepository.Update(db, input.id, UpdateData(input), session.value.id);
      Call(HandleUpdate(call.outcome), call.db)
  }

  /** The body of a successful delete response. */
  datatype DeleteResult = DeleteResult(success: bool)

  /** What `deletePost` makes of the repository's outcome, whatever it was. */
  function HandleDelete(repo: Outcome<Option<Post>>): (r: Outcome<DeleteResult>)
    ensures repo.Returned? && repo.value.Some? ==> r == Returned(DeleteResult(true))
    ensures repo == Returned(None) ==> r == Threw(NotFoundError)
    ensures repo.Threw? && IsError(repo.failure) && Message(repo.failure) == "Unauthorized" ==>
                r == Threw(DeleteForbiddenError)
    ensures repo.Threw? && !(IsError(repo.failure) && Message(repo.failure) == "Unauthorized") ==>
                r == Threw(repo.failure)
  {
    var body := match TryBody(repo)
      case Returned(_) => Returned(DeleteResult(true))
      case Threw(f) => Threw(f);
    CatchOwnerError(body, DeleteForbiddenError)
  }

  /** `deletePost`: the procedure's outcome and the store afterwards. */
  function DeletePost(session: Option<User>, id: int, db: Db): (c: Call<DeleteResult>)
    ensures session.None? ==> c == Call(Threw(DeleteLoginError), db)
    ensures session.Some? && id !in db.posts ==> c == Call(Threw(NotFoundError), db)
    ensures session.Some? && id in db.posts && db.posts[id].createdById != session.value.id ==>
                c == Call(Threw(DeleteForbiddenError), db)
    ensures session.Some? && id in db.posts && db.posts[id].createdById == session.value.id ==>
                c == Call(Returned(DeleteResult(true)), Db(db.posts - {id}, db.comments))
  {
    if session.None? then Call(Threw(DeleteLoginError), db)
    else
      var call := PostRepository.Delete(db, id, session.value.id);
      Call(HandleDelete(call.outcome), call.db)
  }

  /** The list query as it arrives: every field optional. The schema
      declares `page`, `limit` and `search`; other fields are stripped. */
  datatype ListQuery = ListQuery(page: Option<nat>, limit: Option<nat>, offset: Option<nat>, search: Option<string>)

  const DefaultPage: nat := 0
  const DefaultLimit: nat := 10

  /** The parsed input after the schema's defaults. */
  datatype ListInput = ListInput(page: nat, limit: nat, search: Option<string>)

  function ParseListQuery(q: ListQuery): (input: ListInput)
    ensures input.page == (if q.page.Some? then q.page.value else 0)
    ensures input.limit == (if q.limit.Some? then q.limit.value else 10)
    ensures input.search == q.search
  {
    ListInput(
      if q.page.Some? then q.page.value else DefaultPage,
      if q.limit.Some? then q.limit.value else DefaultLimit,
      q.search)
  }

  /** `const offset = input.page * input.limit`. */
  function PageOffset(input: ListInput): nat
  {
    input.page * input.limit
  }

  /** `findPosts`: page `p` of size `l` is the window starting at rank `p * l`. */
  function FindPosts(db: Db, q: ListQuery): (r: Page)
    requires Valid(db)
    ensures var input := ParseListQuery(q);
            var offset := PageOffset(input);
            && r.total == |FilteredIds(db, input.search)|
            && (r.hasMore <==> offset + input.limit < r.total)
            && |r.posts| == (if offset >= r.total then 0 else Min(input.limit, r.total - offset))
            && (forall i :: 0 <= i < |r.posts| ==>
                  && r.posts[i].id in FilteredIds(db, input.search)
                  && db.posts[r.posts[i].id] == r.posts[i]
                  && RankIn(db.posts, FilteredIds(db, input.search), r.posts[i].id) == offset + i)
            && (forall i, j :: 0 <= i < j < |r.posts| ==> r.posts[i].createdAt >= r.posts[j].createdAt)
    ensures var limit := if q.limit.Some? then q.limit.value else 10;
            var page := if q.page.Some? then q.page.value else 0;
            r == FindMany(db, limit, page * limit, q.search)
  {
    var input := ParseListQuery(q);
    FindMany(db, input.limit, PageOffset(input), input.search)
  }

  /** A missing `page` reads as 0 and a missing `limit` as 10; an `offset`
      field has no effect on the result. */
  lemma FindPostsDefaults(db: Db, q: ListQuery, anyOffset: Option<nat>)
    requires Valid(db)
    ensures q.page.None? && q.limit.None? ==> FindPosts(db, q) == FindMany(db, 10, 0, q.search)
    ensures FindPosts(db, q.(offset := anyOffset)) == FindPosts(db, q)
  {
    assert ParseListQuery(q.(offset := anyOffset)) == ParseListQuery(q);
    if q.page.None? && q.limit.None? {
      assert ParseListQuery(q) == ListInput(0, 10, q.search);
      assert PageOffset(ParseListQuery(q)) == 0;
    }
  }

  /** `getPostById`: the stored post, or NOT_FOUND. */
  function GetPostById(db: Db, id: int): (r: Outcome<Post>)
    ensures id !in db.posts ==> r == Threw(NotFoundError)
    ensures id in db.posts ==> r == Returned(db.posts[id])
  {
    match FindById(db, id)
    case None => Threw(NotFoundError)
    case Some(p) => Returned(p)
  }
}
