/**
 * The list operations both post stores perform on their sequence of posts:
 * building a post from a draft, finding by id, merging an update payload
 * into a post, and filtering posts out by id.
 */
module PostOps {
  import opened BlogTypes

  /** Some post in the list carries `id`. */
  predicate HasId(posts: seq<Post>, id: string)
  {
    exists k :: 0 <= k < |posts| && posts[k].id == id
  }

  /** Every post's category is one of the three names. */
  predicate AllCategoriesValid(posts: seq<Post>)
  {
    forall k :: 0 <= k < |posts| ==> IsCategory(posts[k].category)
  }

  /** The post a successful create appends: the draft's five fields, the given id and creation time. */
  function NewPost(id: string, data: Draft, createdAt: int): (p: Post)
    ensures p.id == id && p.createdAt == createdAt && p.Fields() == data
  {
    Post(id, data.title, data.author, data.summary, data.category, data.content, createdAt)
  }

  /** The index of the first post carrying `id`, or -1 when none does. */
  function FindIndex(posts: seq<Post>, id: string): (r: int)
    ensures -1 <= r < |posts|
    ensures r == -1 <==> !HasId(posts, id)
    ensures r >= 0 ==> posts[r].id == id && forall k :: 0 <= k < r ==> posts[k].id != id
  {
    if |posts| == 0 then -1
    else if posts[0].id == id then 0
    else
      var r := FindIndex(posts[1..], id);
      assert forall k :: 1 <= k < |posts| ==> posts[k] == posts[1..][k - 1];
      if r == -1 then -1 else r + 1
  }

  /** The first post carrying `id`, if any. */
  function Find(posts: seq<Post>, id: string): (r: Option<Post>)
    ensures r.None? <==> !HasId(posts, id)
    ensures r.Some? ==> r.value.id == id && r.value in posts
  {
    var i := FindIndex(posts, id);
    if i == -1 then None else Some(posts[i])
  }

  /** Find returns the first match: a post whose id no earlier post carries. */
  lemma FindIsFirstMatch(posts: seq<Post>, id: string, k: int)
    requires 0 <= k < |posts| && posts[k].id == id
    requires forall j :: 0 <= j < k ==> posts[j].id != id
    ensures Find(posts, id) == Some(posts[k])
  {
  }

  /** Appending a post leaves every earlier lookup alone and makes the new id findable. */
  lemma FindAfterAppend(posts: seq<Post>, p: Post, id: string)
    ensures HasId(posts, id) ==> Find(posts + [p], id) == Find(posts, id)
    ensures !HasId(posts, id) && p.id == id ==> Find(posts + [p], id) == Some(p)
    ensures !HasId(posts, id) && p.id != id ==> Find(posts + [p], id).None?
  {
    var all := posts + [p];
    var i := FindIndex(posts, id);
    if i >= 0 {
      FindIsFirstMatch(all, id, i);
    } else if p.id == id {
      FindIsFirstMatch(all, id, |posts|);
    } else {
      assert !HasId(all, id) by {
        forall k | 0 <= k < |all| ensures all[k].id != id {
          if k < |posts| { assert all[k] == posts[k]; }
        }
      }
    }
  }

  /**
   * The posts not carrying `id`, in their original order. Dropping nothing
   * happens exactly when no post carries the id.
   */
  function RemoveId(posts: seq<Post>, id: string): (r: seq<Post>)
    ensures forall p :: p in r <==> p in posts && p.id != id
    ensures |r| <= |posts|
    ensures |r| == |posts| <==> !HasId(posts, id)
    ensures !HasId(r, id)
  {
    if |posts| == 0 then []
    else
      var rest := RemoveId(posts[1..], id);
      HasIdCons(posts, id);
      if posts[0].id == id then rest else [posts[0]] + rest
  }

  /** A list carries `id` iff its head does or its tail does. */
  lemma HasIdCons(posts: seq<Post>, id: string)
    requires |posts| > 0
    ensures HasId(posts, id) <==> posts[0].id == id || HasId(posts[1..], id)
  {
    if HasId(posts, id) && posts[0].id != id {
      var k :| 0 <= k < |posts| && posts[k].id == id;
      assert posts[1..][k - 1].id == id;
    }
    if HasId(posts[1..], id) {
      var k :| 0 <= k < |posts[1..]| && posts[1..][k].id == id;
      assert posts[k + 1].id == id;
    }
  }

  /** Removing by id a second time changes nothing. */
  lemma {:induction false} RemoveIdIdempotent(posts: seq<Post>, id: string)
    ensures RemoveId(RemoveId(posts, id), id) == RemoveId(posts, id)
  {
    var r := RemoveId(posts, id);
    NoMatchRemovesNothing(r, id);
  }

  /** When no post carries `id`, removal returns the list as it was. */
  lemma {:induction false} NoMatchRemovesNothing(posts: seq<Post>, id: string)
    requires !HasId(posts, id)
    ensures RemoveId(posts, id) == posts
    decreases |posts|
  {
    if |posts| > 0 {
      var tail := posts[1..];
      HasIdCons(posts, id);
      NoMatchRemovesNothing(tail, id);
    }
  }

  /** Removal keeps order: removing from a concatenation removes from each part. */
  lemma {:induction false} RemoveIdDistributes(a: seq<Post>, b: seq<Post>, id: string)
    ensures RemoveId(a + b, id) == RemoveId(a, id) + RemoveId(b, id)
    decreases |a|
  {
    if |a| == 0 {
      assert a + b == b;
    } else {
      assert (a + b)[1..] == a[1..] + b;
      assert (a + b)[0] == a[0];
      RemoveIdDistributes(a[1..], b, id);
    }
  }

  /** Every supplied field of the payload replaces the draft's; absent ones keep the draft's value. */
  function Overlay(d: Draft, patch: PartialDraft): (r: Draft)
    ensures forall f: Field :: patch.Get(f).Some? ==> r.Get(f) == patch.Get(f).value
    ensures forall f: Field :: patch.Get(f).None? ==> r.Get(f) == d.Get(f)
  {
    Draft(
      if patch.title.Some? then patch.title.value else d.title,
      if patch.author.Some? then patch.author.value else d.author,
      if patch.summary.Some? then patch.summary.value else d.summary,
      if patch.category.Some? then patch.category.value else d.category,
      if patch.content.Some? then patch.content.value else d.content)
  }

  /**
   * The category check of the update path: a non-empty category that is
   * one of the three names is re-assigned into the payload it was already
   * spread into. It changes nothing, so an invalid category stays in.
   */
  function CategoryGuard(patch: PartialDraft): (r: PartialDraft)
    ensures r == patch
  {
    if patch.category.Some? && patch.category.value != "" && IsCategory(patch.category.value)
    then patch.(category := Some(patch.category.value))
    else patch
  }

  /** A post updated by a payload: supplied fields overwrite, the id and creation time stay. */
  function Merge(post: Post, patch: PartialDraft): (r: Post)
    ensures r.id == post.id && r.createdAt == post.createdAt
    ensures forall f: Field :: r.Fields().Get(f) == if patch.Get(f).Some? then patch.Get(f).value else post.Fields().Get(f)
  {
    var fields := Overlay(post.Fields(), CategoryGuard(patch));
    Post(post.id, fields.title, fields.author, fields.summary, fields.category, fields.content, post.createdAt)
  }

  /** Merging the same payload twice is the same as merging it once. */
  lemma MergeIdempotent(post: Post, patch: PartialDraft)
    ensures Merge(Merge(post, patch), patch) == Merge(post, patch)
  {
    var once := Merge(post, patch);
    var twice := Merge(once, patch);
    assert twice.Fields().Get(Title) == once.Fields().Get(Title);
    assert twice.Fields().Get(Author) == once.Fields().Get(Author);
    assert twice.Fields().Get(Summary) == once.Fields().Get(Summary);
    assert twice.Fields().Get(CategoryField) == once.Fields().Get(CategoryField);
    assert twice.Fields().Get(Content) == once.Fields().Get(Content);
  }

  /** A full draft merged into a post replaces all five fields. */
  lemma MergeFullDraft(post: Post, data: Draft)
    ensures Merge(post, AsPartial(data)).Fields() == data
  {
    var r := Merge(post, AsPartial(data));
    assert r.Fields().Get(Title) == data.Get(Title);
    assert r.Fields().Get(Author) == data.Get(Author);
    assert r.Fields().Get(Summary) == data.Get(Summary);
    assert r.Fields().Get(CategoryField) == data.Get(CategoryField);
    assert r.Fields().Get(Content) == data.Get(Content);
  }

  /** An update payload with an out-of-enumeration category writes it into the post. */
  lemma UpdateWritesInvalidCategory(post: Post)
    ensures var r := Merge(post, PartialDraft(None, None, None, Some("Food"), None));
      r.category == "Food" && !IsCategory(r.category)
  {
    var r := Merge(post, PartialDraft(None, None, None, Some("Food"), None));
    assert r.Fields().Get(CategoryField) == "Food";
  }

  /** Appending a post with a valid category keeps every category valid. */
  lemma AppendKeepsCategoriesValid(posts: seq<Post>, p: Post)
    requires AllCategoriesValid(posts) && IsCategory(p.category)
    ensures AllCategoriesValid(posts + [p])
  {
    var all := posts + [p];
    forall k | 0 <= k < |all| ensures IsCategory(all[k].category) {
      if k < |posts| { assert all[k] == posts[k]; }
    }
  }

  /** Removing posts keeps every category valid. */
  lemma RemoveKeepsCategoriesValid(posts: seq<Post>, id: string)
    requires AllCategoriesValid(posts)
    ensures AllCategoriesValid(RemoveId(posts, id))
  {
    var r := RemoveId(posts, id);
    forall k | 0 <= k < |r| ensures IsCategory(r[k].category) {
      assert r[k] in posts;
      var j :| 0 <= j < |posts| && posts[j] == r[k];
    }
  }

  /** Replacing one post by a merge keeps every category valid iff the merge's category is valid. */
  lemma MergeAtKeepsCategoriesValid(posts: seq<Post>, i: int, patch: PartialDraft)
    requires AllCategoriesValid(posts) && 0 <= i < |posts|
    ensures AllCategoriesValid(posts[i := Merge(posts[i], patch)])
            <==> patch.category.None? || IsCategory(patch.category.value)
  {
    var m := Merge(posts[i], patch);
    assert m.category == m.Fields().Get(CategoryField);
    var updated := posts[i := m];
    if !(patch.category.None? || IsCategory(patch.category.value)) {
      assert !IsCategory(updated[i].category);
    }
  }
}
