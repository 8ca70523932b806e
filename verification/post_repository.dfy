/**
  The post repository over an abstract store: posts and comments keyed by
  their identifiers. Every operation that writes takes the store and
  returns the outcome together with the store afterwards; the reads
  (`FindMany`, `FindById`) return their result alone.
 */
module PostRepository {
  import opened Common
  import opened Errors

  datatype Post = Post(
    id: int,
    name: string,
    content: string,
    createdAt: int,
    updatedAt: int,
    createdById: string)

  datatype Comment = Comment(id: int, text: string, postId: int, userId: string, createdAt: int)

  datatype Db = Db(posts: map<int, Post>, comments: map<int, Comment>)

  /** Every row is stored under its own identifier. */
  predicate Valid(db: Db)
  {
    && (forall k :: k in db.posts ==> db.posts[k].id == k)
    && (forall k :: k in db.comments ==> db.comments[k].id == k)
  }

  /** The result of a repository call and the store after it. */
  datatype Call<+T> = Call(outcome: Outcome<T>, db: Db)

  // ---------------------------------------------------------------------
  // Listing: search filter, newest-first order, skip/take and `hasMore`
  // ---------------------------------------------------------------------

  /** The search term filters only when present and non-empty (`search ? … : {}`). */
  predicate SearchActive(search: Option<string>)
  {
    search.Some? && search.value != []
  }

  /** `{ contains: term, mode: "insensitive" }`. */
  predicate ContainsInsensitive(text: string, term: string)
  {
    IsSubstring(Lower(term), Lower(text))
  }

  /** The `where` clause: name OR content contains the term, ignoring case. */
  predicate Included(p: Post, search: Option<string>)
  {
    !SearchActive(search)
    || ContainsInsensitive(p.name, search.value)
    || ContainsInsensitive(p.content, search.value)
  }

  /** Identifiers of the posts the `where` clause selects. */
  function FilteredIds(db: Db, search: Option<string>): (ids: set<int>)
    ensures ids <= db.posts.Keys
    ensures forall k :: k in ids <==> k in db.posts && Included(db.posts[k], search)
  {
    set k | k in db.posts && Included(db.posts[k], search)
  }

  /** `orderBy: { createdAt: "desc" }`; equal timestamps fall back to the
      larger identifier first, so that the order is total. */
  predicate Before(m: map<int, Post>, a: int, b: int)
    requires a in m && b in m
  {
    m[a].createdAt > m[b].createdAt || (m[a].createdAt == m[b].createdAt && a > b)
  }

  /** `k` comes before every other key of `ks`. */
  predicate IsFirstOf(m: map<int, Post>, ks: set<int>, k: int)
    requires ks <= m.Keys
  {
    k in ks && forall j :: j in ks && j != k ==> Before(m, k, j)
  }

  predicate SortedIds(m: map<int, Post>, s: seq<int>)
  {
    && (forall i :: 0 <= i < |s| ==> s[i] in m)
    && (forall i, j :: 0 <= i < j < |s| ==> Before(m, s[i], s[j]))
  }

  /** Every non-empty finite set of keys has a first key. */
  lemma {:induction false} FirstExists(m: map<int, Post>, ks: set<int>)
    requires ks != {} && ks <= m.Keys
    ensures exists k :: IsFirstOf(m, ks, k)
    decreases ks
  {
    var x := PickFrom(ks);
    var rest := ks - {x};
    if rest == {} {
      assert ks == {x};
      assert IsFirstOf(m, ks, x);
    } else {
      FirstExists(m, rest);
      var y :| IsFirstOf(m, rest, y);
      if Before(m, x, y) {
        forall j | j in ks && j != x
          ensures Before(m, x, j)
        {
          if j != y {
            assert Before(m, y, j);
          }
        }
        assert IsFirstOf(m, ks, x);
      } else {
        assert IsFirstOf(m, ks, y);
      }
    }
  }

  /** The keys of `ks` in listing order. */
  function Ordered(m: map<int, Post>, ks: set<int>): (r: seq<int>)
    requires ks <= m.Keys
    ensures SortedIds(m, r)
    ensures forall k :: k in r <==> k in ks
    ensures |r| == |ks|
    decreases ks
  {
    if ks == {} then []
    else
      FirstExists(m, ks);
      var k :| IsFirstOf(m, ks, k);
      [k] + Ordered(m, ks - {k})
  }

  /** How many keys of `ks` are listed before `k`. */
  function RankIn(m: map<int, Post>, ks: set<int>, k: int): nat
    requires ks <= m.Keys && k in m
  {
    |set j | j in ks && Before(m, j, k)|
  }

  /** A sequence without repetitions has as many elements as its set. */
  lemma {:induction false} DistinctCard(s: seq<int>)
    requires forall i, j :: 0 <= i < j < |s| ==> s[i] != s[j]
    ensures |set x | x in s| == |s|
  {
    if s != [] {
      DistinctCard(s[1..]);
      assert (set x | x in s) == {s[0]} + (set x | x in s[1..]);
      assert s[0] !in (set x | x in s[1..]);
    }
  }

  /** In the listing, the element at position `i` has exactly `i` keys before it. */
  lemma OrderedRank(m: map<int, Post>, ks: set<int>, i: int)
    requires ks <= m.Keys && 0 <= i < |Ordered(m, ks)|
    ensures RankIn(m, ks, Ordered(m, ks)[i]) == i
  {
    var r := Ordered(m, ks);
    SortedPrefixIsBefore(m, ks, r, i);
    assert forall a, b :: 0 <= a < b < |r[..i]| ==> Before(m, r[..i][a], r[..i][b]);
    DistinctCard(r[..i]);
  }

  /** In a sorted listing of `ks`, the keys listed before position `i` are
      exactly the keys of `ks` that come before the key at `i`. */
  lemma SortedPrefixIsBefore(m: map<int, Post>, ks: set<int>, r: seq<int>, i: int)
    requires ks <= m.Keys && SortedIds(m, r) && (forall k :: k in r <==> k in ks)
    requires 0 <= i < |r|
    ensures (set j | j in ks && Before(m, j, r[i])) == set x | x in r[..i]
  {
    forall j | j in ks && Before(m, j, r[i])
      ensures j in r[..i]
    {
      var t :| 0 <= t < |r| && r[t] == j;
      assert t < i;
    }
  }

  datatype Page = Page(posts: seq<Post>, total: nat, hasMore: bool)

  /** `skip: offset, take: limit` over a sequence. */
  function SkipTake<T>(s: seq<T>, offset: nat, limit: nat): (w: seq<T>)
    ensures |w| == if offset >= |s| then 0 else Min(limit, |s| - offset)
    ensures forall i :: 0 <= i < |w| ==> w[i] == s[offset + i]
  {
    if offset >= |s| then [] else s[offset..offset + Min(limit, |s| - offset)]
  }

  /** The stored posts under the given keys, in the same order. */
  function Rows(m: map<int, Post>, ids: seq<int>): (r: seq<Post>)
    requires forall i :: 0 <= i < |ids| ==> ids[i] in m
    ensures |r| == |ids|
    ensures forall i :: 0 <= i < |ids| ==> r[i] == m[ids[i]]
  {
    seq(|ids|, i requires 0 <= i < |ids| => m[ids[i]])
  }

  /** `findMany`: select with the search filter, order newest first, skip
      `offset`, take at most `limit`, count all selected posts. */
  function FindMany(db: Db, limit: nat, offset: nat, search: Option<string>): (r: Page)
    requires Valid(db)
    ensures r.total == |FilteredIds(db, search)|
    ensures r.hasMore <==> offset + limit < r.total
    ensures |r.posts| == if offset >= r.total then 0 else Min(limit, r.total - offset)
    ensures forall i :: 0 <= i < |r.posts| ==>
              r.posts[i].id in FilteredIds(db, search) && db.posts[r.posts[i].id] == r.posts[i]
    ensures forall i, j :: 0 <= i < j < |r.posts| ==> r.posts[i].createdAt >= r.posts[j].createdAt
    ensures forall i :: 0 <= i < |r.posts| ==>
              RankIn(db.posts, FilteredIds(db, search), r.posts[i].id) == offset + i
  {
    var ks := FilteredIds(db, search);
    var ids := Ordered(db.posts, ks);
    var window := SkipTake(ids, offset, limit);
    var posts := Rows(db.posts, window);
    ListingFacts(db, ks, ids, offset, window, posts);
    Page(posts, |ids|, offset + limit < |ids|)
  }

  /** What a window of the listing inherits from the listing. */
  lemma ListingFacts(db: Db, ks: set<int>, ids: seq<int>, offset: nat, window: seq<int>, posts: seq<Post>)
    requires Valid(db) && ks <= db.posts.Keys && ids == Ordered(db.posts, ks)
    requires |window| > 0 ==> offset + |window| <= |ids|
    requires forall i :: 0 <= i < |window| ==> window[i] == ids[offset + i]
    requires |posts| == |window| && forall i :: 0 <= i < |window| ==> posts[i] == db.posts[window[i]]
    ensures forall i :: 0 <= i < |posts| ==> posts[i].id in ks && db.posts[posts[i].id] == posts[i]
    ensures forall i, j :: 0 <= i < j < |posts| ==> posts[i].createdAt >= posts[j].createdAt
    ensures forall i :: 0 <= i < |posts| ==> RankIn(db.posts, ks, posts[i].id) == offset + i
  {
    WindowSorted(db.posts, ids, offset, window);
    forall i | 0 <= i < |posts|
      ensures posts[i].id == window[i] && posts[i].id in ks
      ensures RankIn(db.posts, ks, posts[i].id) == offset + i
    {
      OrderedRank(db.posts, ks, offset + i);
    }
  }

  /** A contiguous window of a sorted listing is sorted. */
  lemma WindowSorted(m: map<int, Post>, ids: seq<int>, offset: nat, window: seq<int>)
    requires SortedIds(m, ids)
    requires |window| > 0 ==> offset + |window| <= |ids|
    requires forall i :: 0 <= i < |window| ==> window[i] == ids[offset + i]
    ensures forall i, j :: 0 <= i < j < |window| ==> m[window[i]].createdAt >= m[window[j]].createdAt
  {
    forall i, j | 0 <= i < j < |window|
      ensures m[window[i]].createdAt >= m[window[j]].createdAt
    {
      assert window[i] == ids[offset + i] && window[j] == ids[offset + j];
      assert Before(m, ids[offset + i], ids[offset + j]);
    }
  }

  // ---------------------------------------------------------------------
  // Single-post operations
  // ---------------------------------------------------------------------

  /** `findById`: the post, or `null`. */
  function FindById(db: Db, id: int): (r: Option<Post>)
    ensures r.Some? <==> id in db.posts
    ensures r.Some? ==> r.value == db.posts[id]
  {
    if id in db.posts then Some(db.posts[id]) else None
  }

  /** The fields a caller may create a post with. */
  datatype PostDraft = PostDraft(name: string, content: string)

  /** `create`: store the draft, owned by `userId`; the store supplies a
      fresh identifier and the creation time. */
  function Create(db: Db, data: PostDraft, userId: string, newId: int, now: int): (c: Call<Post>)
    requires newId !in db.posts
    ensures c.outcome.Returned?
    ensures c.outcome.value.createdById == userId
    ensures c.outcome.value.name == data.name && c.outcome.value.content == data.content
    ensures c.db.posts.Keys == db.posts.Keys + {newId}
    ensures c.db.posts[newId] == c.outcome.value && c.outcome.value.id == newId
    ensures forall k :: k in db.posts ==> c.db.posts[k] == db.posts[k]
    ensures c.db.comments == db.comments
    ensures Valid(db) ==> Valid(c.db)
  {
    var p := Post(newId, data.name, data.content, now, now, userId);
    Call(Returned(p), Db(db.posts[newId := p], db.comments))
  }

  /** The fields an update may change; an absent field is left as it is. */
  datatype PostPatch = PostPatch(name: Option<string>, content: Option<string>)

  function ApplyPatch(p: Post, data: PostPatch): (q: Post)
    ensures q.id == p.id && q.createdById == p.createdById && q.createdAt == p.createdAt
    ensures q.name == (if data.name.Some? then data.name.value else p.name)
    ensures q.content == (if data.content.Some? then data.content.value else p.content)
  {
    p.(name := if data.name.Some? then data.name.value else p.name,
       content := if data.content.Some? then data.content.value else p.content)
  }

  /** The error the repository throws at a caller who does not own the post. */
  const UnauthorizedError: Failure := PlainError("Unauthorized")

  /** `update`: `null` for a missing post, `Error("Unauthorized")` for a
      caller other than the creator, otherwise the patched post. */
  function Update(db: Db, id: int, data: PostPatch, userId: string): (c: Call<Option<Post>>)
    ensures id !in db.posts ==> c == Call(Returned(None), db)
    ensures id in db.posts && db.posts[id].createdById != userId ==> c == Call(Threw(UnauthorizedError), db)
    ensures c.outcome.Returned? && c.outcome.value.Some? ==>
              && id in db.posts && db.posts[id].createdById == userId
              && c.outcome.value.value == ApplyPatch(db.posts[id], data)
              && c.db == Db(db.posts[id := c.outcome.value.value], db.comments)
    ensures id in db.posts && db.posts[id].createdById == userId ==> c.outcome.Returned? && c.outcome.value.Some?
    ensures Valid(db) ==> Valid(c.db)
  {
    if id !in db.posts then Call(Returned(None), db)
    else if db.posts[id].createdById != userId then Call(Threw(UnauthorizedError), db)
    else
      var p := ApplyPatch(db.posts[id], data);
      Call(Returned(Some(p)), Db(db.posts[id := p], db.comments))
  }

  /** `delete`: `null` for a missing post, `Error("Unauthorized")` for a
      caller other than the creator, otherwise the removed post. */
  function Delete(db: Db, id: int, userId: string): (c: Call<Option<Post>>)
    ensures id !in db.posts ==> c == Call(Returned(None), db)
    ensures id in db.posts && db.posts[id].createdById != userId ==> c == Call(Threw(UnauthorizedError), db)
    ensures id in db.posts && db.posts[id].createdById == userId ==>
              && c.outcome == Returned(Some(db.posts[id]))
              && c.db.posts.Keys == db.posts.Keys - {id}
              && (forall k :: k in c.db.posts ==> c.db.posts[k] == db.posts[k])
              && c.db.comments == db.comments
    ensures Valid(db) ==> Valid(c.db)
  {
    if id !in db.posts then Call(Returned(None), db)
    else if db.posts[id].createdById != userId then Call(Threw(UnauthorizedError), db)
    else Call(Returned(Some(db.posts[id])), Db(db.posts - {id}, db.comments))
  }

  /** `createComment`: store a comment carrying exactly the given post,
      text and author; the store supplies a fresh identifier and the time. */
  function CreateComment(db: Db, postId: int, text: string, userId: string, newId: int, now: int): (c: Call<Comment>)
    requires newId !in db.comments
    ensures c.outcome.Returned?
    ensures c.outcome.value.postId == postId && c.outcome.value.text == text && c.outcome.value.userId == userId
    ensures c.db.comments.Keys == db.comments.Keys + {newId} && c.db.comments[newId] == c.outcome.value
    ensures forall k :: k in db.comments ==> c.db.comments[k] == db.comments[k]
    ensures c.db.posts == db.posts
    ensures Valid(db) ==> Valid(c.db)
  {
    var cm := Comment(newId, text, postId, userId, now);
    Call(Returned(cm), Db(db.posts, db.comments[newId := cm]))
  }

  // ---------------------------------------------------------------------
  // Properties relating several operations
  // ---------------------------------------------------------------------

  /** With no search term (absent or empty) every post is selected. */
  lemma NoSearchSelectsAll(db: Db, search: Option<string>)
    requires !SearchActive(search)
    ensures FilteredIds(db, search) == db.posts.Keys
  {
  }

  /** Reading after an owner's update gives the patched post; applying the
      same patch again changes nothing further. */
  lemma UpdateThenRead(db: Db, id: int, data: PostPatch, userId: string)
    requires id in db.posts && db.posts[id].createdById == userId
    ensures FindById(Update(db, id, data, userId).db, id) == Some(ApplyPatch(db.posts[id], data))
    ensures var db1 := Update(db, id, data, userId).db;
            Update(db1, id, data, userId).db == db1
  {
    var db1 := Update(db, id, data, userId).db;
    assert db1.posts[id] == ApplyPatch(db.posts[id], data);
    assert ApplyPatch(db1.posts[id], data) == db1.posts[id];
    assert db1.posts[id := db1.posts[id]] == db1.posts;
  }

  /** The creator of a post may update and delete it. */
  lemma CreatorOwns(db: Db, data: PostDraft, userId: string, newId: int, now: int, patch: PostPatch)
    requires newId !in db.posts
    ensures var db1 := Create(db, data, userId, newId, now).db;
            && Update(db1, newId, patch, userId).outcome.Returned?
            && Update(db1, newId, patch, userId).outcome.value.Some?
            && Delete(db1, newId, userId).outcome == Returned(Some(db1.posts[newId]))
  {
  }

  /** After an owner's delete the post is gone from reads and listings,
      and the listing total drops by one exactly when the post was selected. */
  lemma DeleteThenList(db: Db, id: int, userId: string, search: Option<string>)
    requires id in db.posts && db.posts[id].createdById == userId
    ensures var db1 := Delete(db, id, userId).db;
            && FindById(db1, id) == None
            && FilteredIds(db1, search) == FilteredIds(db, search) - {id}
            && |FilteredIds(db1, search)| ==
                 |FilteredIds(db, search)| - (if Included(db.posts[id], search) then 1 else 0)
  {
    var db1 := Delete(db, id, userId).db;
    assert FilteredIds(db1, search) == FilteredIds(db, search) - {id};
  }
}
