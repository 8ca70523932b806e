# Edu-Plus-Web core, modelled in Dafny

Edu-Plus-Web is a school platform. Teachers manage classes ("turmas"), students and exercise lists. Members write posts and comments. This project models the parts of it that decide who may do what and what gets sent or shown:

- **Page guard** (`RouteGuard`, `RouteControl`). This is the ordered route table and the first-match walk over it. A table path `[name]` segment stands for one non-empty run of non-`/` characters. Patterns are a token sequence, not a regular expression.
- **Role permissions** (`Permissions`). Each role holds a fixed permission list. A request for several permissions passes when *any* of them is held.
- **Post repository** (`PostRepository`). This is an abstract store of posts and comments:
  - listing uses a case-insensitive search, newest first, then skip/take, a total and `hasMore`;
  - find by id and create;
  - the owner-only update and delete;
  - comment creation.

  Every operation that writes returns its outcome together with the store afterwards; the reads (`FindMany`, `FindById`) return their result alone. A thrown error is a value (`Errors.Outcome`).
- **Post procedures** (`PostMethods`):
  - The update and delete procedures check the session, call the repository, then turn `null` into NOT_FOUND and the repository's `Error("Unauthorized")` into FORBIDDEN. Any other thrown value is rethrown unchanged.
  - The list and get-by-id procedures are public: they check no session and catch nothing.
  - The list procedure's input has defaults, and it derives the offset from `page` before forwarding to the repository listing.
  - Get-by-id turns a `null` result into NOT_FOUND.
- **Student access page** (`AccessCode`). This covers formatting the access code as it is typed, the submit checks and the submit button, and the mapping from HTTP status to message.
- **Class dashboard forms** (`TurmaDashboard`). This covers the question-selection toggle and the guards and trimmed payloads of the register-student, edit-student, remove-student and create-list handlers.
- **Posts screen** (`PostsFeature`). This covers the request the screen sends, the reset of the search, the pager and the labels.
- **Post card and comment section** (`PostUi`). This covers the owner-or-admin predicates, the author labels, the comment-submit button, and whether the form or the login prompt is shown.
- **Cross-checks** (`CrossChecks`). These are lemmas about the client and server models together:
  - an admin is offered edit and delete on any post, but the server answers FORBIDDEN to every non-owner;
  - the screen sends `offset`, which the list procedure's input schema does not declare, so every page index receives the first page and "Próxima" never becomes disabled.

Every module is one `.dfy` file. All files are verified together.

## Model

| member | source | states |
|---|---|---|
| RouteGuard.CheckRoutePermission | src/interface/utils/check-route-permission.ts:4-18 | The answer is true exactly when the first table entry that applies to the path lists the role. Exact equality and a whole-path pattern match both make an entry apply. No applicable entry means false. |
| RouteGuard.FirstMatchUnique | src/interface/utils/check-route-permission.ts:5-14 | At most one entry is the first applicable one. When it exists, it alone decides for every role. |
| RouteGuard.ExactEntryDecides | src/interface/utils/check-route-permission.ts:6-8 | An entry whose path equals the requested one, with no earlier entry applying, decides. Entries appended later never change the verdict. |
| RouteGuard.NoMatchDenies | src/interface/utils/check-route-permission.ts:17 | With no applicable entry, no role is let in. |
| RouteGuard.Compile | src/interface/utils/check-route-permission.ts:10 | The pattern of a path has at most one token per character. A wildcard appears only where the path has a `[`, and a path without `[` becomes its own characters as literals. |
| RouteGuard.Matches | src/interface/utils/check-route-permission.ts:11-12 | A matched path is at least as long as the pattern. A pattern without wildcards matches only the text of its literals. |
| RouteGuard.LitsThen | src/interface/utils/check-route-permission.ts:11 | Literal tokens consume exactly their own characters before handing the rest of the path on. |
| RouteGuard.LitsMatchExactly | src/interface/utils/check-route-permission.ts:11 | The `^…$` anchoring: a literal pattern matches its own text and nothing else, in particular no prefix or extension. |
| RouteGuard.CompileBracketFree | src/interface/utils/check-route-permission.ts:10 | The replacement leaves a path without `[` as plain literals. |
| RouteGuard.BracketFreePatternIsExact | src/interface/utils/check-route-permission.ts:6-13 | For a route path without `[`, the pattern branch accepts exactly the paths the equality branch accepts. |
| RouteGuard.WildMatchesOneSegment | src/interface/utils/check-route-permission.ts:10 | `([^/]+)` matches exactly the non-empty strings without `/`. |
| RouteGuard.CompileParam | src/interface/utils/check-route-permission.ts:10 | A `[name]` group with a non-empty name compiles to one wildcard. |
| RouteGuard.PrefixParamMatches | src/interface/utils/check-route-permission.ts:10-12 | An entry `prefix[name]` applies to exactly the paths made of the prefix and one non-empty segment without `/`. |
| RouteGuard.BracketFreeTableIsLookup | src/interface/utils/check-route-permission.ts:4-18 | On a table with no `[name]` segments, the guard is a lookup: the first entry with exactly the requested path decides, and an unlisted path is refused. |
| RouteControl.AllAllowedIsEveryRole | src/config/route-control.ts:3 | `allAllowed` holds each of the three roles exactly once. |
| RouteControl.TableIsLiteralLookup | src/config/route-control.ts:7-24 | No path of the table has a parameter segment, so the guard over it is a lookup of the requested path. |
| RouteControl.ListedPath | src/config/route-control.ts:7-24 | For each listed path, the verdict is membership of the role in that entry's list. |
| RouteControl.HomeAndPostsOpenToAll | src/config/route-control.ts:7-24 | `/` and `/posts` admit every role. |
| RouteControl.AdminPageOnlyAdmin | src/config/route-control.ts:12-15 | `/admin-page` admits ADMIN and no other role. |
| RouteControl.MemberPageOnlyMember | src/config/route-control.ts:16-19 | `/member-page` admits MEMBER only, so ADMIN and MANAGER are refused. |
| RouteControl.UnlistedPathDenied | src/config/route-control.ts:7-24 | Any path the table does not list is refused for every role. |
| RouteControl.PostDetailDenied | src/config/route-control.ts:20-23 | `/posts/1` is refused for every role, because the table has no `/posts/[id]` entry. |
| RouteControl.PublicRoutesNotInTable | src/config/route-control.ts:5 | None of the public pages is in the table, so the guard refuses each of them for every role. |
| Permissions.NamesDistinct | src/common/permissions.ts:3-10 | The six permission strings are pairwise distinct. |
| Permissions.CheckPermission | src/common/permissions.ts:32-35 | A request is granted exactly when some requested permission is in the role's list. An empty request is refused. |
| Permissions.PermissionSetsNested | src/common/permissions.ts:14-30 | MEMBER's permissions are contained in MANAGER's, and MANAGER's in ADMIN's. |
| Permissions.CheckMonotone | src/common/permissions.ts:14-35 | A request a lower role passes, every higher role passes. |
| Permissions.OnlyAdminHardDeletes | src/common/permissions.ts:22-29 | Only ADMIN holds HARD_DELETE and SOFT_DELETE_ALL. |
| Permissions.MemberHoldsReadCreate | src/common/permissions.ts:15 | MEMBER holds exactly READ and CREATE. A request for UPDATE alone is refused, but UPDATE together with READ is granted. |
| PostRepository.FilteredIds | src/server/routers/posts/repository.ts:8-15 | A post is selected exactly when there is no search term, or its name or content contains the term ignoring case. |
| PostRepository.NoSearchSelectsAll | src/server/routers/posts/repository.ts:8-15 | An absent or empty search term selects every post. |
| PostRepository.Ordered | src/server/routers/posts/repository.ts:44 | The listing holds each selected post once, newest first. |
| PostRepository.OrderedRank | src/server/routers/posts/repository.ts:44-46 | The post at listing position `i` has exactly `i` selected posts ordered before it. |
| PostRepository.SkipTake | src/server/routers/posts/repository.ts:45-46 | Skip/take returns the `min(limit, n - offset)` elements from position `offset` on, or none when `offset` is past the end. |
| PostRepository.FindMany | src/server/routers/posts/repository.ts:5-56 | `total` counts every selected post, and `hasMore` is `offset + limit < total`. The page holds `min(limit, total - offset)` selected posts, as stored, newest first. The post at page position `i` has rank `offset + i` among the selected posts. |
| PostRepository.FindById | src/server/routers/posts/repository.ts:58-83 | The stored post with that id, or `null` when there is none. |
| PostRepository.Create | src/server/routers/posts/repository.ts:85-101 | Exactly one new post is added, carrying the draft's fields and owned by the caller. Every other row is untouched. |
| PostRepository.ApplyPatch | src/server/routers/posts/repository.ts:118-120 | Fields present in the patch replace the stored ones. Absent fields, the id, the owner and the creation time are kept. |
| PostRepository.Update | src/server/routers/posts/repository.ts:103-131 | A missing post gives `null`, and a caller who is not the creator gets `Error("Unauthorized")`; in both cases the store is unchanged. Only the creator's call succeeds, and it stores the patched post. |
| PostRepository.Delete | src/server/routers/posts/repository.ts:133-151 | A missing post gives `null`, and a non-creator gets `Error("Unauthorized")`; the store is unchanged. The creator's call returns the post and removes exactly that one. |
| PostRepository.CreateComment | src/server/routers/posts/repository.ts:153-170 | Exactly one new comment is added, with the given post, text and author. Posts are untouched. |
| PostRepository.UpdateThenRead | src/server/routers/posts/repository.ts:103-131 | After an owner's update, reading gives the patched post. Applying the same patch again changes nothing. |
| PostRepository.CreatorOwns | src/server/routers/posts/repository.ts:85-151 | The user who created a post may then update it and delete it. |
| PostRepository.DeleteThenList | src/server/routers/posts/repository.ts:133-151 | After an owner's delete, the post is gone from reads and listings. The listing total drops by one exactly when the post matched the search. |
| PostMethods.HandleUpdate | src/server/routers/posts/methods/update-post.ts:14-34 | A post is returned and `null` becomes NOT_FOUND. The repository's "Unauthorized" `Error` becomes FORBIDDEN. Any other thrown value is rethrown unchanged. |
| PostMethods.TryBody | src/server/routers/posts/methods/update-post.ts:14-25 | The `try` passes a post on, turns `null` into NOT_FOUND, and lets a thrown value through unchanged. |
| PostMethods.CatchOwnerError | src/server/routers/posts/methods/update-post.ts:26-33 | The `catch` turns exactly an `Error` with message "Unauthorized" into FORBIDDEN. It rethrows every other thrown value unchanged and never touches a returned value. |
| PostMethods.CatchKeepsOtherErrors | src/server/routers/posts/methods/update-post.ts:26-33 | The `catch` passes on NOT_FOUND and every value other than an "Unauthorized" `Error` untouched. |
| PostMethods.UpdatePost | src/server/routers/posts/methods/update-post.ts:6-35 | No session gives UNAUTHORIZED, a missing post NOT_FOUND, and a non-owner FORBIDDEN, all with the store unchanged. The owner gets the patched post, stored. |
| PostMethods.HandleDelete | src/server/routers/posts/methods/delete-post.ts:14-33 | A deleted post answers `{ success: true }` and `null` becomes NOT_FOUND. "Unauthorized" becomes FORBIDDEN, and anything else is rethrown. |
| PostMethods.DeletePost | src/server/routers/posts/methods/delete-post.ts:6-34 | No session gives UNAUTHORIZED, a missing post NOT_FOUND, and a non-owner FORBIDDEN, all with the store unchanged. The owner gets success, and the post is removed. |
| PostMethods.ParseListQuery | src/server/routers/posts/methods/find-posts.ts:8-12 | `page` defaults to 0 and `limit` to 10, and `search` is kept. Nothing else survives parsing. |
| PostMethods.UpdateData | src/server/routers/posts/methods/update-post.ts:15 | The patch passed to the repository is the input without its id: the name and content exactly as given. |
| PostMethods.FindPosts | src/server/routers/posts/methods/find-posts.ts:14-21 | `limit` and `search` are forwarded unchanged and the offset is `page * limit`, so the result is the repository listing for those values. Page `p` of size `l` holds exactly `min(l, total - p*l)` selected posts (none past the end), stored as they are, newest first, at ranks `p*l`, `p*l+1`, …. `hasMore` is `p*l + l < total`. |
| PostMethods.FindPostsDefaults | src/server/routers/posts/methods/find-posts.ts:8-15 | With no page and no limit the query is the first ten. An `offset` field never changes the result. |
| PostMethods.GetPostById | src/server/routers/posts/methods/find-posts.ts:24-35 | The stored post, or NOT_FOUND. |
| AccessCode.KeepAlnum | src/app/aluno/page.tsx:58 | The result holds only ASCII letters and digits taken from the input, every letter and digit of the input appears in it, and an all-alphanumeric input is kept whole. A single character is kept exactly when it is a letter or digit. |
| AccessCode.KeepAlnumAppend | src/app/aluno/page.tsx:58 | The filter works character by character: filtering a concatenation is the concatenation of the filtered parts, so the kept characters stay in their order. |
| AccessCode.FormatCode | src/app/aluno/page.tsx:56-61 | At most six characters, all in `A-Z0-9`. The result is a prefix of the upper-cased alphanumerics of the input, of length `min(6, their count)`. |
| AccessCode.FormatIdempotent | src/app/aluno/page.tsx:56-67 | Formatting what the field already shows changes nothing. |
| AccessCode.FormattedIsUpper | src/app/aluno/page.tsx:34-58 | The code shown is already upper case, so upper-casing it on submit changes nothing. |
| AccessCode.Submit | src/app/aluno/page.tsx:17-34 | A blank code gets "Digite seu código de acesso" and any other code that is not 6 long gets the length message. A request is sent exactly for a non-blank 6-character code, upper-cased. |
| AccessCode.EnabledIffSent | src/app/aluno/page.tsx:20-107 | For every code the field can hold, the button is enabled exactly when a submit sends a request, and the request carries the code as shown. |
| AccessCode.FailureMessage | src/app/aluno/page.tsx:44-50 | 404 means an invalid code. 400 shows the server's non-empty error text, or the default. Anything else, including no response, is the connection message. |
| TurmaDashboard.RemoveAll | src/interface/features/turmas/dashboard-turma-page.tsx:231 | The filtered selection no longer holds the id, and holds every other id exactly when the original did. |
| TurmaDashboard.RemoveAllAppend | src/interface/features/turmas/dashboard-turma-page.tsx:231 | Filtering works piece by piece, so the kept ids stay in their order. |
| TurmaDashboard.RemoveAllAbsent | src/interface/features/turmas/dashboard-turma-page.tsx:231 | Filtering out an id that is not there changes nothing. |
| TurmaDashboard.RemoveAllNoDuplicates | src/interface/features/turmas/dashboard-turma-page.tsx:231 | Filtering keeps a duplicate-free selection duplicate-free. |
| TurmaDashboard.Toggle | src/interface/features/turmas/dashboard-turma-page.tsx:229-233 | The id's membership flips and no other id's membership changes. An unselected id is appended at the end, and a selected one is removed everywhere. |
| TurmaDashboard.ToggleTwiceRestores | src/interface/features/turmas/dashboard-turma-page.tsx:229-233 | Selecting an id and toggling it again restores the original selection. |
| TurmaDashboard.ToggleNoDuplicates | src/interface/features/turmas/dashboard-turma-page.tsx:229-233 | Toggling never puts an id in the selection twice. |
| TurmaDashboard.RegisterStudent | src/interface/features/turmas/dashboard-turma-page.tsx:148-160 | A missing class id, or a name or guardian made only of whitespace, gives the alert. Otherwise the trimmed name and guardian are sent with the class id, and the birth date only when it is non-empty. |
| TurmaDashboard.RemoveStudent | src/interface/features/turmas/dashboard-turma-page.tsx:162-175 | The removal is sent exactly when there is a class id and the user confirmed. It is never an alert. |
| TurmaDashboard.SaveStudentEdit | src/interface/features/turmas/dashboard-turma-page.tsx:192-206 | No student being edited does nothing, and a name or guardian made only of whitespace gives the alert. Otherwise the same id is sent with the trimmed fields. |
| TurmaDashboard.CreateList | src/interface/features/turmas/dashboard-turma-page.tsx:208-227 | A missing class id or a title made only of whitespace gives the title alert; no selected question gives the question alert. Otherwise the trimmed title and the selection are sent. The description is sent trimmed and only when non-empty, and each date only when non-empty. |
| TurmaDashboard.TrimmedFieldIsClean | src/interface/features/turmas/dashboard-turma-page.tsx:149-156 | A field that passed the blank check is sent non-empty, with no surrounding whitespace. |
| Common.Trim | src/interface/features/turmas/dashboard-turma-page.tsx:149-156 | `trim()` returns the contiguous middle of the string: everything before it and everything after it is whitespace, and it neither starts nor ends with whitespace. |
| TurmaDashboard.CreatedListIsClean | src/interface/features/turmas/dashboard-turma-page.tsx:208-227 | Whenever the class id is present, the title has a non-whitespace character and a question is selected, a list is sent. Its title is non-empty with no surrounding whitespace, its description is absent or non-blank and trimmed, and it has at least one question. |
| TurmaDashboard.DescriptionIsClean | src/interface/features/turmas/dashboard-turma-page.tsx:221 | A description that is sent is non-blank and already trimmed. |
| TurmaDashboard.SentStudentIsClean | src/interface/features/turmas/dashboard-turma-page.tsx:148-160 | Whenever the class id is present and the name and guardian each have a non-whitespace character, a student is sent, and its name and guardian are non-blank and already trimmed. |
| PostsFeature.Request | src/interface/features/posts/index.tsx:19-25 | The query carries limit 10 and `offset = 10 * page`, which is a multiple of 10 that gives back the page. It carries no `page` field, and the search only when non-empty. |
| PostsFeature.HandleSearch | src/interface/features/posts/index.tsx:27-30 | A new search text always restarts at page 0, so offset 0 is requested. |
| PostsFeature.Previous | src/interface/features/posts/index.tsx:124 | "Anterior" does nothing on page 0 and otherwise moves back one page. |
| PostsFeature.Next | src/interface/features/posts/index.tsx:132 | "Próxima" moves forward one page exactly when the response says there is more. |
| PostsFeature.PageCount | src/interface/features/posts/index.tsx:129 | The page count is `ceil(total / 10)`: enough pages for every post, with the last page non-empty. |
| PostsFeature.PageCountIsLeast | src/interface/features/posts/index.tsx:129 | No smaller number of ten-post pages holds every post. |
| PostsFeature.PagerView | src/interface/features/posts/index.tsx:122-136 | The pager is shown exactly when total > 10. "Anterior" is disabled exactly on page 0 and "Próxima" exactly when there is no more. The label is `page + 1` of `ceil(total/10)`. |
| PostsFeature.PagerMovesOnePage | src/interface/features/posts/index.tsx:122-136 | An enabled control moves exactly one page, and a disabled one leaves the state alone. |
| PostsFeature.CountLabel | src/interface/features/posts/index.tsx:89 | The singular noun is used exactly when the total is 1. |
| PostsFeature.EmptyListView | src/interface/features/posts/index.tsx:105-115 | The no-results message names the search exactly when there is one. The login invitation shows exactly for a visitor. |
| PostUi.PostCardActions | src/interface/features/posts/post-card.tsx:60-101 | Edit is offered exactly to a logged-in viewer who created the post or is ADMIN. Delete is offered exactly when edit is, the menu shows exactly when either is offered, and a visitor gets nothing. |
| PostUi.OwnerOrAdmin | src/interface/features/posts/post-card.tsx:60-61 | For a logged-in viewer: true exactly when the viewer is ADMIN or the owner id is the viewer's. For a visitor: true exactly when the owner id is absent as well. |
| PostUi.CommentCanDelete | src/interface/features/posts/comments-section.tsx:93 | For a logged-in viewer, delete is offered exactly when the viewer is ADMIN or wrote the comment. For a visitor, it is offered exactly on comments with no author, because `undefined === undefined`. |
| PostUi.CommentDeleteByViewer | src/interface/features/posts/comments-section.tsx:93 | A visitor may delete exactly the authorless comments, and an admin every comment. Any other viewer may delete exactly their own. |
| PostUi.SameRuleForPostsAndComments | src/interface/features/posts/post-card.tsx:60-61 | On a comment with an author, the comment rule and the post card's rule agree. |
| PostUi.PostAuthorLabel | src/interface/features/posts/post-card.tsx:86 | The name when it is non-empty, otherwise the e-mail. |
| PostUi.CommentAuthorLabel | src/interface/features/posts/comments-section.tsx:110 | Never empty. It shows the name, else the e-mail, else "Usuário anônimo". |
| PostUi.AuthorLabelsAgree | src/interface/features/posts/comments-section.tsx:110 | For an author with a name or an e-mail, the comment line and the card line show the same text. |
| PostUi.CommentCountLabel | src/interface/features/posts/post-card.tsx:149 | The singular noun is used exactly when the count is 1. |
| PostUi.SubmitDisabled | src/interface/features/posts/comments-section.tsx:70-163 | Disabled exactly while submitting or when the text is all whitespace. An enabled button implies the text has a non-space character. |
| PostUi.RenderComments | src/interface/features/posts/comments-section.tsx:84-183 | The placeholder shows exactly for an empty list, and there is one row per comment with its label and delete rule. The form shows exactly for an authenticated user and the login prompt exactly otherwise. The submit button follows the submit rule. |
| PostUi.FormOrPrompt | src/interface/features/posts/comments-section.tsx:148-182 | Exactly one of the comment form and the login prompt is shown. |
| CrossChecks.ServerIgnoresRole | src/server/routers/posts/repository.ts:103-151 | The update and delete procedures decide by ownership alone. The caller's role never changes their outcome. |
| CrossChecks.AdminOfferedButForbidden | src/interface/features/posts/post-card.tsx:60-61 | An admin who does not own a post is offered edit and delete on its card. Both procedures answer FORBIDDEN and leave the store untouched. |
| CrossChecks.NonAdminCardAgreesWithServer | src/interface/features/posts/post-card.tsx:60-61 | For every non-admin viewer, the card offers delete (and edit) exactly when the server would carry it out. |
| CrossChecks.EveryPageGetsTheFirstPage | src/interface/features/posts/index.tsx:21-25 | The screen sends `offset`, which the procedure's input does not declare, and no `page`. Every page index receives the same result, the first ten matches. |
| CrossChecks.ShownRowsAreTopRanked | src/server/routers/posts/methods/find-posts.ts:15 | On every page index, the rows shown are the highest-ranked matches, at ranks 0, 1, …. |
| CrossChecks.NextNeverDisabled | src/interface/features/posts/index.tsx:122-136 | Once there are more than ten matches, "Próxima" stays enabled on every page index, so the page number shown runs past the page count. |

## Left out

- Regular-expression metacharacters in table paths are treated as literal characters. No table path contains one.
- Roles: only MEMBER, MANAGER and ADMIN are modelled. The database enum declaring them is not part of this model, and the activity routes compare a user's role with `"ALUNO"`, so the enum holds at least one more role. For such a role `RolePermissions[role]` is `undefined`: `checkPermission` (src/common/permissions.ts:32-35) then throws a `TypeError` on any non-empty request, and `checkRoutePermission` refuses every listed page. That error path is not modelled.
- PostRepository.Ordered: breaks ties between equal `createdAt` values by the larger id, because the database leaves their order unspecified.
- `limit`, `offset` and `page` are natural numbers. The input schema accepts negative and fractional numbers, and what the database does with them is not modelled.
- The database supplies the ids and timestamps. `Create` and `CreateComment` take them as parameters and require a fresh id.
- PostRepository.ApplyPatch: keeps the stored `updatedAt`, because the database's update-time stamping is not modelled.
- Foreign keys and cascades (a comment's post must exist; deleting a post with comments) are not modelled. `CreateComment` does not check the post.
- The `include`/`select` projections (creator, comments, `_count`) and the `Promise.all` concurrency of the listing are not modelled. A page holds the stored posts.
- Trimming covers the ASCII whitespace characters and the common Unicode spaces, not every Unicode space separator. Case-insensitive search and upper-casing work on ASCII letters only.
- Rendering, hooks, `alert`/`confirm` dialogs (a confirmation is a boolean input), `localStorage`, router navigation and the network calls of the pages are left out. They are presentation or I/O.
- The "Editado" badge compares two `Date` objects by reference, so it is left out with the other date formatting.
- The dashboard's `handleEditarAluno` and delete-list handlers are not modelled. They only copy fields into dialogs, format dates or forward ids.
- The edit-list save (src/interface/features/turmas/dashboard-turma-page.tsx:403-412) is not modelled. It sends the whole edited list: `titulo`, `descricao || undefined`, both dates and the selected question ids. Unlike `handleCriarLista` it trims nothing and has no blank-title or empty-selection guard. So an edit can store a list with a blank or untrimmed title, or with no question, which `CreatedListIsClean` shows creation never sends.
- Student progress aggregation is computed in the activity API routes, which are not part of this model.
- The `create` and `createComment` procedures are thin wrappers over `Create` and `CreateComment`, and the comment-text schema is not part of this model. The comment form is modelled only through its submit button.
- The comment section calls `posts.addComment` and `posts.deleteComment`, but the posts router (src/server/routers/posts/router.ts:8-24) defines neither: its comment procedure is `createComment`, and it has no comment delete. So the comment form and the delete control that `RenderComments` and `CommentCanDelete` describe reach no procedure. The model describes what the section shows and leaves the failing calls out.
- The session hook's `isAuthenticated` and `user` are independent inputs of `RenderComments`.
