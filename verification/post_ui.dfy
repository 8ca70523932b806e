/**
  What the post card and its comment section show to a viewer: which
  actions are offered, how authors are labelled, and when the comment
  form can be submitted.
 */
module PostUi {
  import opened Common

  /** A user as embedded in a post or comment: `name` may be `null`. */
  datatype Author = Author(id: string, name: Option<string>, email: string)

  /** `user?.id`: absent when nobody is logged in. */
  function ViewerId(viewer: Option<User>): (r: Option<string>)
    ensures r.Some? <==> viewer.Some?
    ensures r.Some? ==> r.value == viewer.value.id
  {
    match viewer
    case None => None
    case Some(v) => Some(v.id)
  }

  /** `comment.user?.id`: absent for a comment with no author. */
  function AuthorId(author: Option<Author>): (r: Option<string>)
    ensures r.Some? <==> author.Some?
    ensures r.Some? ==> r.value == author.value.id
  {
    match author
    case None => None
    case Some(a) => Some(a.id)
  }

  /** `viewerId === ownerId || user?.role === "ADMIN"`, where both ids may be
      `undefined` and `undefined === undefined` holds. */
  function OwnerOrAdmin(viewer: Option<User>, ownerId: Option<string>): (b: bool)
    ensures viewer.None? ==> (b <==> ownerId.None?)
    ensures viewer.Some? ==> (b <==> viewer.value.role == Admin || ownerId == Some(viewer.value.id))
  {
    ViewerId(viewer) == ownerId || (viewer.Some? && viewer.value.role == Admin)
  }

  /** The actions the post card offers. */
  datatype CardActions = CardActions(canEdit: bool, canDelete: bool, showMenu: bool)

  /** `canEdit`, `canDelete` and the menu around them. */
  function PostCardActions(viewer: Option<User>, creator: Author): (a: CardActions)
    ensures a.canEdit <==> viewer.Some? && (viewer.value.id == creator.id || viewer.value.role == Admin)
    ensures a.canDelete == a.canEdit
    ensures a.showMenu <==> a.canEdit || a.canDelete
    ensures viewer.None? ==> !a.canEdit && !a.canDelete && !a.showMenu
  {
    var edit := OwnerOrAdmin(viewer, Some(creator.id));
    var delete := OwnerOrAdmin(viewer, Some(creator.id));
    CardActions(edit, delete, edit || delete)
  }

  /** Per-comment `canDelete`. */
  function CommentCanDelete(viewer: Option<User>, author: Option<Author>): (b: bool)
    ensures viewer.Some? ==> (b <==> viewer.value.role == Admin || (author.Some? && author.value.id == viewer.value.id))
    ensures viewer.None? ==> (b <==> author.None?)
  {
    OwnerOrAdmin(viewer, AuthorId(author))
  }

  /** A visitor is offered the delete action exactly on comments that have
      no author, and an admin on every comment. */
  lemma CommentDeleteByViewer(viewer: Option<User>, author: Option<Author>)
    ensures viewer.None? ==> (CommentCanDelete(viewer, author) <==> author.None?)
    ensures viewer.Some? && viewer.value.role == Admin ==> CommentCanDelete(viewer, author)
    ensures viewer.Some? && viewer.value.role != Admin ==>
              (CommentCanDelete(viewer, author) <==> AuthorId(author) == Some(viewer.value.id))
  {
  }

  /** The post card and the comment section apply one rule to posts and to
      authored comments. */
  lemma SameRuleForPostsAndComments(viewer: Option<User>, author: Author)
    ensures CommentCanDelete(viewer, Some(author)) == PostCardActions(viewer, author).canDelete
  {
  }

  /** JavaScript `a || b` on strings: the empty string is falsy. */
  function OrElse(a: Option<string>, b: string): (r: string)
    ensures a.Some? && a.value != [] ==> r == a.value
    ensures a.None? || a.value == [] ==> r == b
  {
    if a.Some? && a.value != [] then a.value else b
  }

  /** The post card's author line: `name || email`. */
  function PostAuthorLabel(creator: Author): (s: string)
    ensures creator.name.Some? && creator.name.value != [] ==> s == creator.name.value
    ensures creator.name.None? || creator.name.value == [] ==> s == creator.email
  {
    OrElse(creator.name, creator.email)
  }

  const AnonymousLabel: string := "Usuário anônimo"

  /** The comment's author line: name, else e-mail, else a fixed label. */
  function CommentAuthorLabel(author: Option<Author>): (s: string)
    ensures s != []
    ensures author.Some? && author.value.name.Some? && author.value.name.value != [] ==> s == author.value.name.value
    ensures author.Some? && (author.value.name.None? || author.value.name.value == []) && author.value.email != [] ==>
              s == author.value.email
    ensures author.None? || ((author.value.name.None? || author.value.name.value == []) && author.value.email == []) ==>
              s == AnonymousLabel
  {
    match author
    case None => AnonymousLabel
    case Some(a) => OrElse(a.name, OrElse(Some(a.email), AnonymousLabel))
  }

  /** Where the card and the comment section agree on an author line: for
      an author with a name or an e-mail they show the same text. */
  lemma AuthorLabelsAgree(author: Author)
    requires (author.name.Some? && author.name.value != []) || author.email != []
    ensures CommentAuthorLabel(Some(author)) == PostAuthorLabel(author)
  {
  }

  const SingularComment: string := "comentário"
  const PluralComment: string := "comentários"

  /** The comment-count button's noun. */
  function CommentCountLabel(count: nat): (noun: string)
    ensures noun == SingularComment <==> count == 1
    ensures noun == PluralComment <==> count != 1
  {
    if count == 1 then SingularComment else PluralComment
  }

  const EmptyCommentsMessage: string := "Nenhum comentário ainda. Seja o primeiro a comentar!"
  const CommentLoginPrompt: string := "Faça login para comentar neste post."

  /** `watch("text") || ""`: the field's text, empty before it is touched. */
  function CommentText(field: Option<string>): (t: string)
    ensures field.Some? ==> t == field.value
    ensures field.None? ==> t == []
  {
    if field.Some? then field.value else []
  }

  /** The submit button: `disabled={isSubmitting || !commentText.trim()}`. */
  function SubmitDisabled(isSubmitting: bool, field: Option<string>): (d: bool)
    ensures d <==> isSubmitting || AllSpace(CommentText(field))
    ensures !d ==> exists i :: 0 <= i < |CommentText(field)| && !IsSpace(CommentText(field)[i])
  {
    BlankIffAllSpace(CommentText(field));
    isSubmitting || IsBlank(CommentText(field))
  }

  /** A comment as the section receives it. */
  datatype CommentItem = CommentItem(id: int, text: string, user: Option<Author>)

  /** One rendered comment. */
  datatype CommentRow = CommentRow(id: int, authorLabel: string, text: string, canDelete: bool)

  /** The section as rendered. */
  datatype CommentsView = CommentsView(
    placeholder: Option<string>,
    rows: seq<CommentRow>,
    formSubmitDisabled: Option<bool>,
    loginPrompt: Option<string>)

  function RenderComments(
    comments: seq<CommentItem>, viewer: Option<User>, authenticated: bool,
    isSubmitting: bool, field: Option<string>): (v: CommentsView)
    ensures v.placeholder.Some? <==> |comments| == 0
    ensures v.placeholder.Some? ==> v.placeholder.value == EmptyCommentsMessage
    ensures |v.rows| == |comments|
    ensures forall i :: 0 <= i < |comments| ==>
              && v.rows[i].id == comments[i].id
              && v.rows[i].text == comments[i].text
              && v.rows[i].authorLabel == CommentAuthorLabel(comments[i].user)
              && (v.rows[i].canDelete <==> OwnerOrAdmin(viewer, AuthorId(comments[i].user)))
    ensures v.formSubmitDisabled.Some? <==> authenticated
    ensures v.loginPrompt.Some? <==> !authenticated
    ensures v.loginPrompt.Some? ==> v.loginPrompt.value == CommentLoginPrompt
    ensures v.formSubmitDisabled.Some? ==>
              (v.formSubmitDisabled.value <==> isSubmitting || IsBlank(CommentText(field)))
  {
    var rows := seq(|comments|, i requires 0 <= i < |comments| =>
      CommentRow(comments[i].id, CommentAuthorLabel(comments[i].user), comments[i].text,
                 CommentCanDelete(viewer, comments[i].user)));
    CommentsView(
      if |comments| == 0 then Some(EmptyCommentsMessage) else None,
      rows,
      if authenticated then Some(SubmitDisabled(isSubmitting, field)) else None,
      if authenticated then None else Some(CommentLoginPrompt))
  }

  /** Exactly one of the comment form and the login prompt is shown. */
  lemma FormOrPrompt(
    comments: seq<CommentItem>, viewer: Option<User>, authenticated: bool,
    isSubmitting: bool, field: Option<string>)
    ensures var v := RenderComments(comments, viewer, authenticated, isSubmitting, field);
            v.formSubmitDisabled.Some? != v.loginPrompt.Some?
  {
  }
}
