/**
  Where the client screens and the server procedures disagree. Each lemma
  states what the two models do together on the same inputs; neither model
  is adjusted to hide the mismatch.
 */
module CrossChecks {
  import opened Common
  import opened Errors
  import opened PostRepository
  import opened PostMethods
  import opened PostsFeature
  import opened PostUi

  /** The card's view of a stored post's creator. */
  function CreatorOf(p: Post, name: Option<string>, email: string): (a: Author)
    ensures a.id == p.createdById
  {
    Author(p.createdById, name, email)
  }

  /** The server decides edit and delete by ownership alone: the caller's
      role never changes the outcome. */
  lemma ServerIgnoresRole(uid: string, r1: Role, r2: Role, id: int, input: UpdateInput, db: Db)
    ensures DeletePost(Some(User(uid, r1)), id, db) == DeletePost(Some(User(uid, r2)), id, db)
    ensures UpdatePost(Some(User(uid, r1)), input, db) == UpdatePost(Some(User(uid, r2)), input, db)
  {
  }

  /** An admin who does not own a post is offered "Editar" and "Deletar" on
      its card, yet both procedures answer FORBIDDEN and leave the store
      untouched. */
  lemma AdminOfferedButForbidden(
    uid: string, db: Db, id: int, name: Option<string>, email: string, newName: Option<string>, newContent: Option<string>)
    requires id in db.posts && db.posts[id].createdById != uid
    ensures var card := PostCardActions(Some(User(uid, Admin)), CreatorOf(db.posts[id], name, email));
            card.canEdit && card.canDelete && card.showMenu
    ensures DeletePost(Some(User(uid, Admin)), id, db) == Call(Threw(DeleteForbiddenError), db)
    ensures UpdatePost(Some(User(uid, Admin)), UpdateInput(id, newName, newContent), db)
            == Call(Threw(UpdateForbiddenError), db)
  {
  }

  /** For every viewer other than an admin the card offers "Deletar"
      exactly when the server would delete the post. */
  lemma NonAdminCardAgreesWithServer(uid: string, role: Role, db: Db, id: int, name: Option<string>, email: string)
    requires role != Admin
    requires id in db.posts
    ensures PostCardActions(Some(User(uid, role)), CreatorOf(db.posts[id], name, email)).canDelete
            <==> DeletePost(Some(User(uid, role)), id, db).outcome.Returned?
    ensures PostCardActions(Some(User(uid, role)), CreatorOf(db.posts[id], name, email)).canEdit
            <==> UpdatePost(Some(User(uid, role)), UpdateInput(id, None, None), db).outcome.Returned?
  {
  }

  /** The page asks for `offset = page * 10`, but the procedure's input has
      no `offset` and derives it from `page`, which the page never sends:
      every page index receives the first page. */
  lemma EveryPageGetsTheFirstPage(db: Db, s: ListState)
    requires Valid(db)
    ensures FindPosts(db, Request(s)) == FindPosts(db, Request(s.(page := 0)))
    ensures FindPosts(db, Request(s)) == FindMany(db, PageSize, 0, NonEmpty(s.search))
  {
    FindPostsDefaults(db, Request(s), Some(0));
    assert Request(s).(offset := Some(0)) == Request(s.(page := 0));
    assert ParseListQuery(Request(s)) == ListInput(0, 10, NonEmpty(s.search));
    assert PageOffset(ParseListQuery(Request(s))) == 0;
  }

  /** Every row shown on any page is one of the ten highest-ranked matches,
      whatever page index the screen displays. */
  lemma ShownRowsAreTopRanked(db: Db, s: ListState)
    requires Valid(db)
    ensures var r := FindPosts(db, Request(s));
            forall i :: 0 <= i < |r.posts| ==> RankIn(db.posts, FilteredIds(db, NonEmpty(s.search)), r.posts[i].id) == i
  {
    EveryPageGetsTheFirstPage(db, s);
    assert ParseListQuery(Request(s.(page := 0))) == ListInput(0, 10, NonEmpty(s.search));
    assert PageOffset(ParseListQuery(Request(s.(page := 0)))) == 0;
  }

  /** Once there is more than one page, "Próxima" stays enabled on every
      page index, so the displayed page number runs past the page count. */
  lemma NextNeverDisabled(db: Db, s: ListState)
    requires Valid(db)
    requires FindPosts(db, Request(s)).total > PageSize
    ensures var r := FindPosts(db, Request(s));
            var pager := PagerView(s, r.total, r.hasMore);
            && pager.Some?
            && !pager.value.nextDisabled
            && Next(s, r.hasMore).page == s.page + 1
            && (s.page >= pager.value.pageCount ==> pager.value.pageLabel > pager.value.pageCount)
  {
    EveryPageGetsTheFirstPage(db, s);
    assert ParseListQuery(Request(s.(page := 0))) == ListInput(0, 10, NonEmpty(s.search));
    assert PageOffset(ParseListQuery(Request(s.(page := 0)))) == 0;
  }
}
