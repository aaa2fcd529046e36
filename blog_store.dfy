/**
 * The application's post store, the one the wizard saves through: a single
 * list of posts replaced wholesale by each operation. Persistence of the
 * list is done by the store library and is not part of this model.
 */
module BlogStore {
  import opened BlogTypes
  import opened PostOps

  class Store {
    var posts: seq<Post>

    /** The store starts with no posts. */
    constructor ()
      ensures posts == []
    {
      posts := [];
    }

    /**
     * Appends a post built from the draft after the category guard; a
     * refused category throws before any state change.
     */
    method AddPost(data: Draft, id: string, createdAt: int) returns (r: Result<string, StoreError>)
      modifies this`posts
      ensures r.Err? <==> !IsCategory(data.category)
      ensures r.Err? ==> r.error == (if data.category == "" then CategoryRequired else InvalidCategory)
      ensures r.Err? ==> posts == old(posts)
      ensures r.Ok? ==> r.value == id && posts == old(posts) + [NewPost(id, data, createdAt)]
      ensures AllCategoriesValid(old(posts)) ==> AllCategoriesValid(posts)
    {
      var check := CheckCategory(data.category);
      if check.Err? {
        return Err(check.error);
      }
      var newPost := NewPost(id, data, createdAt);
      if AllCategoriesValid(posts) {
        AppendKeepsCategoriesValid(posts, newPost);
      }
      posts := posts + [newPost];
      return Ok(id);
    }

    /** The first post with the id, if any. */
    method GetPost(id: string) returns (post: Option<Post>)
      ensures post == Find(posts, id)
    {
      post := Find(posts, id);
    }

    /**
     * Merges the payload into the first post with the id, at the same
     * index; an unknown id changes nothing and reports false.
     */
    method UpdatePost(id: string, patch: PartialDraft) returns (ok: bool)
      modifies this`posts
      ensures ok <==> HasId(old(posts), id)
      ensures !ok ==> posts == old(posts)
      ensures ok ==> var i := FindIndex(old(posts), id);
        && |posts| == |old(posts)|
        && posts[i] == Merge(old(posts)[i], patch)
        && forall k :: 0 <= k < |posts| && k != i ==> posts[k] == old(posts)[k]
      ensures AllCategoriesValid(old(posts)) && ok ==>
        (AllCategoriesValid(posts) <==> patch.category.None? || IsCategory(patch.category.value))
    {
      var postIndex := FindIndex(posts, id);
      if postIndex == -1 {
        return false;
      }
      var updateData := CategoryGuard(patch);
      if AllCategoriesValid(posts) {
        MergeAtKeepsCategoriesValid(posts, postIndex, updateData);
      }
      posts := posts[postIndex := Merge(posts[postIndex], updateData)];
      return true;
    }

    /** Removes every post with the id; reports false, changing nothing, when none matched. */
    method DeletePost(id: string) returns (ok: bool)
      modifies this`posts
      ensures ok <==> HasId(old(posts), id)
      ensures posts == RemoveId(old(posts), id)
      ensures !ok ==> posts == old(posts)
      ensures AllCategoriesValid(old(posts)) ==> AllCategoriesValid(posts)
    {
      var filteredPosts := RemoveId(posts, id);
      if AllCategoriesValid(posts) {
        RemoveKeepsCategoriesValid(posts, id);
      }
      if |filteredPosts| == |posts| {
        NoMatchRemovesNothing(posts, id);
        return false;
      }
      posts := filteredPosts;
      return true;
    }

    method ClearAllPosts()
      modifies this`posts
      ensures posts == []
    {
      posts := [];
    }

    /** Storage is always reported available. */
    method IsStorageAvailable() returns (available: bool)
      ensures available
    {
      return true;
    }
  }
}
