/**
 * The module-level post store with a browser-storage backend and an
 * in-memory fallback. The backend is one optional text cell under the
 * posts key; whether a backend read, write or remove throws is a parameter
 * of the operation that attempts it. Ids and creation times are supplied
 * by the caller.
 */
module LocalStorage {
  import opened BlogTypes
  import opened PostOps

  /**
   * The text held in the backend cell: either text that parses as a post
   * list (what serialising that list produces), or a string that does not
   * parse as a post list.
   */
  datatype Text = Serialized(posts: seq<Post>) | Malformed(raw: string)

  /** A text is truthy unless it is the empty string; a serialised list never is. */
  predicate Truthy(t: Text)
  {
    t.Serialized? || t.raw != ""
  }

  function Serialize(posts: seq<Post>): (t: Text)
    ensures Truthy(t)
    ensures Deserialize(t) == posts
  {
    Serialized(posts)
  }

  /** Parsing the cell: a post list comes back as it was; a text that does not parse as one gives the empty list. */
  function Deserialize(t: Text): (posts: seq<Post>)
    ensures t.Serialized? ==> posts == t.posts
    ensures t.Malformed? ==> posts == []
  {
    match t
    case Serialized(posts) => posts
    case Malformed(_) => []
  }

  /**
   * What reading all posts yields: the parsed backend text when the backend
   * is flagged available, the read does not throw and the cell holds a
   * truthy text; otherwise the in-memory list.
   */
  function Loaded(available: bool, readFails: bool, backend: Option<Text>, memory: seq<Post>): (r: seq<Post>)
    ensures !available || readFails || backend.None? ==> r == memory
    ensures available && !readFails && backend.Some? && backend.value.Malformed? ==> r == if backend.value.raw == "" then memory else []
    ensures available && !readFails && backend.Some? && backend.value.Serialized? ==> r == backend.value.posts
  {
    if available && !readFails && backend.Some? && Truthy(backend.value) then Deserialize(backend.value) else memory
  }

  class Store {
    /** The fallback copy; every read from the backend and every save overwrites it. */
    var memoryStorage: seq<Post>
    /** Cleared for good by the first backend read or write that throws. */
    var isLocalStorageAvailable: bool
    /** The backend cell under the posts key. */
    var backend: Option<Text>

    /** What the next read that does not throw would return. */
    function View(): seq<Post>
      reads this
    {
      Loaded(isLocalStorageAvailable, false, backend, memoryStorage)
    }

    /** The memory copy agrees with what a read would return. */
    predicate Coherent()
      reads this
    {
      View() == memoryStorage
    }

    /**
     * Module initialisation: memory starts empty and the availability flag
     * is the outcome of the write-then-remove probe.
     */
    constructor (persisted: Option<Text>, probeSucceeds: bool)
      ensures memoryStorage == [] && isLocalStorageAvailable == probeSucceeds && backend == persisted
    {
      memoryStorage := [];
      isLocalStorageAvailable := probeSucceeds;
      backend := persisted;
    }

    /** Reads the cell; a throwing read clears the flag for good and yields nothing. */
    method GetFromLocalStorage(readFails: bool) returns (data: Option<Text>)
      modifies this`isLocalStorageAvailable
      ensures data == if old(isLocalStorageAvailable) && !readFails then backend else None
      ensures isLocalStorageAvailable == (old(isLocalStorageAvailable) && !readFails)
    {
      if !isLocalStorageAvailable {
        return None;
      }
      if readFails {
        isLocalStorageAvailable := false;
        return None;
      }
      return backend;
    }

    /** Writes the cell; a throwing write clears the flag for good and reports failure. */
    method SetToLocalStorage(value: Text, writeFails: bool) returns (ok: bool)
      modifies this`isLocalStorageAvailable, this`backend
      ensures ok <==> old(isLocalStorageAvailable) && !writeFails
      ensures isLocalStorageAvailable == ok
      ensures backend == if ok then Some(value) else old(backend)
    {
      if !isLocalStorageAvailable {
        return false;
      }
      if writeFails {
        isLocalStorageAvailable := false;
        return false;
      }
      backend := Some(value);
      return true;
    }

    /** All posts: from the backend when it answers with text, else the memory copy; memory follows. */
    method GetAllBlogPosts(readFails: bool) returns (posts: seq<Post>)
      modifies this`isLocalStorageAvailable, this`memoryStorage
      ensures posts == memoryStorage
      ensures posts == Loaded(old(isLocalStorageAvailable), readFails, backend, old(memoryStorage))
      ensures isLocalStorageAvailable == (old(isLocalStorageAvailable) && !readFails)
      ensures backend == old(backend)
      ensures Coherent()
    {
      if isLocalStorageAvailable {
        var data := GetFromLocalStorage(readFails);
        if data.Some? && Truthy(data.value) {
          posts := Deserialize(data.value);
          memoryStorage := posts;
          return;
        }
      }
      posts := memoryStorage;
    }

    /** Replaces the memory copy, then writes the backend when it is flagged available. */
    method SaveBlogPosts(posts: seq<Post>, writeFails: bool) returns (ok: bool)
      modifies this`isLocalStorageAvailable, this`backend, this`memoryStorage
      ensures memoryStorage == posts
      ensures ok <==> old(isLocalStorageAvailable) && !writeFails
      ensures isLocalStorageAvailable == ok
      ensures backend == if ok then Some(Serialize(posts)) else old(backend)
      ensures Coherent() && View() == posts
    {
      memoryStorage := posts;
      if isLocalStorageAvailable {
        ok := SetToLocalStorage(Serialize(posts), writeFails);
      } else {
        ok := false;
      }
    }

    /**
     * Creates a post after the category guard: a refused category changes
     * nothing; otherwise the new post is appended to the list read from
     * storage and the list is saved.
     */
    method CreateBlogPost(data: Draft, id: string, createdAt: int, readFails: bool, writeFails: bool)
      returns (r: Result<string, StoreError>)
      modifies this
      ensures r.Err? <==> !IsCategory(data.category)
      ensures r.Err? ==> r.error == (if data.category == "" then CategoryRequired else InvalidCategory)
      ensures r.Err? ==> memoryStorage == old(memoryStorage) && backend == old(backend)
                         && isLocalStorageAvailable == old(isLocalStorageAvailable)
      ensures r.Ok? ==> r.value == id
      ensures r.Ok? ==> memoryStorage == Loaded(old(isLocalStorageAvailable), readFails, old(backend), old(memoryStorage))
                                         + [NewPost(id, data, createdAt)]
      ensures r.Ok? ==> isLocalStorageAvailable == (old(isLocalStorageAvailable) && !readFails && !writeFails)
      ensures r.Ok? ==> backend == if isLocalStorageAvailable then Some(Serialize(memoryStorage)) else old(backend)
      ensures r.Ok? ==> Coherent()
    {
      var check := CheckCategory(data.category);
      if check.Err? {
        return Err(check.error);
      }
      var existingPosts := GetAllBlogPosts(readFails);
      var saved := SaveBlogPosts(existingPosts + [NewPost(id, data, createdAt)], writeFails);
      return Ok(id);
    }

    /** The first post with the id among those read from storage. */
    method GetBlogPost(id: string, readFails: bool) returns (post: Option<Post>)
      modifies this`isLocalStorageAvailable, this`memoryStorage
      ensures post == Find(Loaded(old(isLocalStorageAvailable), readFails, backend, old(memoryStorage)), id)
      ensures memoryStorage == Loaded(old(isLocalStorageAvailable), readFails, backend, old(memoryStorage))
      ensures backend == old(backend)
      ensures isLocalStorageAvailable == (old(isLocalStorageAvailable) && !readFails)
      ensures Coherent()
    {
      var posts := GetAllBlogPosts(readFails);
      post := Find(posts, id);
    }

    /**
     * Merges the payload into the first post with the id, in place, and
     * saves; an unknown id saves nothing and reports false.
     */
    method UpdateBlogPost(id: string, patch: PartialDraft, readFails: bool, writeFails: bool) returns (ok: bool)
      modifies this
      ensures var posts := Loaded(old(isLocalStorageAvailable), readFails, old(backend), old(memoryStorage));
        && (ok <==> HasId(posts, id))
        && (!ok ==> memoryStorage == posts && backend == old(backend))
        && (ok ==> var i := FindIndex(posts, id); memoryStorage == posts[i := Merge(posts[i], patch)])
      ensures !ok ==> isLocalStorageAvailable == (old(isLocalStorageAvailable) && !readFails)
      ensures ok ==> isLocalStorageAvailable == (old(isLocalStorageAvailable) && !readFails && !writeFails)
      ensures ok ==> backend == if isLocalStorageAvailable then Some(Serialize(memoryStorage)) else old(backend)
      ensures Coherent()
    {
      var posts := GetAllBlogPosts(readFails);
      var postIndex := FindIndex(posts, id);
      if postIndex == -1 {
        return false;
      }
      var updateData := CategoryGuard(patch);
      var updatedPost := Merge(posts[postIndex], updateData);
      var saved := SaveBlogPosts(posts[postIndex := updatedPost], writeFails);
      return true;
    }

    /** Removes every post with the id and saves; when none matched, nothing is saved. */
    method DeleteBlogPost(id: string, readFails: bool, writeFails: bool) returns (ok: bool)
      modifies this
      ensures var posts := Loaded(old(isLocalStorageAvailable), readFails, old(backend), old(memoryStorage));
        && (ok <==> HasId(posts, id))
        && memoryStorage == RemoveId(posts, id)
        && (!ok ==> backend == old(backend))
      ensures !ok ==> isLocalStorageAvailable == (old(isLocalStorageAvailable) && !readFails)
      ensures ok ==> isLocalStorageAvailable == (old(isLocalStorageAvailable) && !readFails && !writeFails)
      ensures ok ==> backend == if isLocalStorageAvailable then Some(Serialize(memoryStorage)) else old(backend)
      ensures Coherent()
    {
      var posts := GetAllBlogPosts(readFails);
      var filteredPosts := RemoveId(posts, id);
      if |filteredPosts| == |posts| {
        NoMatchRemovesNothing(posts, id);
        return false;
      }
      var saved := SaveBlogPosts(filteredPosts, writeFails);
      return true;
    }

    /** Storage is always reported available: memory is the fallback. */
    method IsStorageAvailable() returns (available: bool)
      ensures available
    {
      return true;
    }

    /** Whether the backend is still flagged usable. */
    method IsLocalStorageWorking() returns (working: bool)
      ensures working == isLocalStorageAvailable
    {
      return isLocalStorageAvailable;
    }

    /**
     * Empties the memory copy and removes the backend cell. A throwing
     * remove is swallowed without clearing the flag, so the stored posts
     * come back on the next read.
     */
    method ClearAllBlogPosts(removeFails: bool)
      modifies this`memoryStorage, this`backend
      ensures memoryStorage == []
      ensures backend == if isLocalStorageAvailable && !removeFails then None else old(backend)
      ensures !(isLocalStorageAvailable && removeFails) ==> Coherent() && View() == []
      ensures isLocalStorageAvailable && removeFails && old(backend).Some? && Truthy(old(backend).value)
              ==> View() == Deserialize(old(backend).value)
    {
      memoryStorage := [];
      if isLocalStorageAvailable && !removeFails {
        backend := None;
      }
    }
  }
}
