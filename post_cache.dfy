/**
  The shared client-side cache entry that holds the post collection, and the three
  patches the mutation success handlers apply to it instead of re-fetching:
  replace by id after an update, append after a create, remove by id after a delete.
*/
module Cache {
  import opened Posts

  /** Every entry whose id equals the returned post's id becomes that post; the rest stay. */
  function UpdateById(s: seq<Post>, data: Post): (r: seq<Post>)
    ensures |r| == |s|
    ensures forall i :: 0 <= i < |s| && s[i].id == data.id ==> r[i] == data
    ensures forall i :: 0 <= i < |s| && s[i].id != data.id ==> r[i] == s[i]
  {
    if s == [] then []
    else [if s[0].id == data.id then data else s[0]] + UpdateById(s[1..], data)
  }

  /** The returned post is added after every existing entry. */
  function AppendPost(s: seq<Post>, data: Post): (r: seq<Post>)
    ensures |r| == |s| + 1
    ensures r[..|s|] == s && r[|s|] == data
  {
    s + [data]
  }

  /** Only the entries whose id differs from `postId` are kept, in their order. */
  function RemoveById(s: seq<Post>, postId: int): (r: seq<Post>)
    ensures |r| == |s| - CountId(s, postId)
    ensures !HasId(r, postId)
    ensures forall p :: p in r <==> p in s && p.id != postId
  {
    if s == [] then []
    else if s[0].id == postId then RemoveById(s[1..], postId)
    else [s[0]] + RemoveById(s[1..], postId)
  }

  // ---- update by id ------------------------------------------------------

  /** An update never changes which id sits at which position. */
  lemma UpdatePreservesIds(s: seq<Post>, data: Post)
    ensures Ids(UpdateById(s, data)) == Ids(s)
  {
    var r := UpdateById(s, data);
    assert forall i :: 0 <= i < |s| ==> Ids(r)[i] == Ids(s)[i];
  }

  /** Hence an id-unique collection stays id-unique. */
  lemma UpdatePreservesUnique(s: seq<Post>, data: Post)
    requires IdUnique(s)
    ensures IdUnique(UpdateById(s, data))
  {
    UpdatePreservesIds(s, data);
    var r := UpdateById(s, data);
    forall i, j | 0 <= i < j < |r|
      ensures r[i].id != r[j].id
    {
      assert Ids(r)[i] == Ids(s)[i] && Ids(r)[j] == Ids(s)[j];
    }
  }

  /** A response whose id is not cached leaves the collection as it was. */
  lemma UpdateUnknownId(s: seq<Post>, data: Post)
    requires !HasId(s, data.id)
    ensures UpdateById(s, data) == s
  {
    var r := UpdateById(s, data);
    assert forall i :: 0 <= i < |s| ==> r[i] == s[i];
  }

  /** A response whose id is cached is installed: it is present and is the only entry with its id. */
  lemma UpdateInstalls(s: seq<Post>, data: Post)
    requires HasId(s, data.id)
    ensures data in UpdateById(s, data)
    ensures forall p :: p in UpdateById(s, data) && p.id == data.id ==> p == data
  {
    var k :| 0 <= k < |s| && s[k].id == data.id;
    var r := UpdateById(s, data);
    assert r[k] == data;
    forall p | p in r && p.id == data.id
      ensures p == data
    {
      var i :| 0 <= i < |r| && r[i] == p;
    }
  }

  /** In an id-unique collection exactly the one matching position is replaced. */
  lemma UpdateReplacesOne(s: seq<Post>, data: Post, k: nat)
    requires IdUnique(s) && k < |s| && s[k].id == data.id
    ensures UpdateById(s, data) == s[k := data]
  {
    var r := UpdateById(s, data);
    forall i | 0 <= i < |s|
      ensures r[i] == s[k := data][i]
    {
      if i != k {
        assert s[i].id != s[k].id;
      }
    }
  }

  // ---- append on create --------------------------------------------------

  /** Appending raises the count of the returned id by one and leaves every other count alone. */
  lemma {:induction false} AppendCountId(s: seq<Post>, data: Post, id: int)
    ensures CountId(AppendPost(s, data), id) == CountId(s, id) + (if data.id == id then 1 else 0)
  {
    if s != [] {
      assert AppendPost(s, data)[1..] == AppendPost(s[1..], data);
      AppendCountId(s[1..], data, id);
    }
  }

  /** After a create the returned id is present. */
  lemma AppendHasId(s: seq<Post>, data: Post)
    ensures HasId(AppendPost(s, data), data.id)
  {
    assert AppendPost(s, data)[|s|].id == data.id;
  }

  /** An append keeps the collection id-unique exactly when the returned id was not cached yet. */
  lemma AppendUniqueIff(s: seq<Post>, data: Post)
    ensures IdUnique(AppendPost(s, data)) <==> IdUnique(s) && !HasId(s, data.id)
  {
    var r := AppendPost(s, data);
    if IdUnique(r) {
      forall i, j | 0 <= i < j < |s|
        ensures s[i].id != s[j].id
      {
        assert r[i] == s[i] && r[j] == s[j];
      }
    }
    if IdUnique(s) && !HasId(s, data.id) {
      forall i, j | 0 <= i < j < |r|
        ensures r[i].id != r[j].id
      {
        assert r[i] == s[i];
        if j < |s| {
          assert r[j] == s[j];
        }
      }
    }
  }

  // ---- remove by id ------------------------------------------------------

  /** The kept entries are a subsequence of the collection: relative order survives. */
  lemma {:induction false} RemoveIsSubsequence(s: seq<Post>, postId: int)
    ensures IsSubsequence(RemoveById(s, postId), s)
  {
    if s != [] {
      RemoveIsSubsequence(s[1..], postId);
      var r := RemoveById(s, postId);
      if s[0].id == postId && r != [] {
        assert r[0] in r;
      }
    }
  }

  /** Removing an id that is not cached leaves the collection as it was. */
  lemma {:induction false} RemoveUnknownId(s: seq<Post>, postId: int)
    requires !HasId(s, postId)
    ensures RemoveById(s, postId) == s
  {
    if s != [] {
      assert s[0].id != postId;
      assert !HasId(s[1..], postId) by {
        forall i | 0 <= i < |s[1..]|
          ensures s[1..][i].id != postId
        {
          assert s[1..][i] == s[i + 1];
        }
      }
      RemoveUnknownId(s[1..], postId);
      assert RemoveById(s, postId) == [s[0]] + RemoveById(s[1..], postId);
      assert s == [s[0]] + s[1..];
    }
  }

  /** Deleting the same id twice is the same as deleting it once. */
  lemma RemoveIdempotent(s: seq<Post>, postId: int)
    ensures RemoveById(RemoveById(s, postId), postId) == RemoveById(s, postId)
  {
    RemoveUnknownId(RemoveById(s, postId), postId);
  }

  /** In an id-unique collection that holds `postId`, a delete removes exactly one entry. */
  lemma RemoveExactlyOne(s: seq<Post>, postId: int)
    requires IdUnique(s) && HasId(s, postId)
    ensures |RemoveById(s, postId)| == |s| - 1
  {
    CountUniqueIsOne(s, postId);
  }

  /** A delete keeps an id-unique collection id-unique. */
  lemma RemovePreservesUnique(s: seq<Post>, postId: int)
    requires IdUnique(s)
    ensures IdUnique(RemoveById(s, postId))
  {
    RemoveIsSubsequence(s, postId);
    SubsequenceKeepsUnique(RemoveById(s, postId), s);
  }

  /**
    The `['posts']` entry of the query cache. Each method replaces the whole
    collection by one patch, as the functional updater of the cache does.
  */
  class PostCache {
    var posts: seq<Post>

    /** The entry as the first successful list fetch stores it. */
    constructor (fetched: seq<Post>)
      ensures posts == fetched
    {
      posts := fetched;
    }

    /** Applied after a successful update. */
    method SetUpdated(data: Post)
      modifies this
      ensures posts == UpdateById(old(posts), data)
      ensures IdUnique(old(posts)) ==> IdUnique(posts)
      ensures !HasId(old(posts), data.id) ==> posts == old(posts)
    {
      UpdatePreservesIds(posts, data);
      if IdUnique(posts) {
        UpdatePreservesUnique(posts, data);
      }
      if !HasId(posts, data.id) {
        UpdateUnknownId(posts, data);
      }
      posts := UpdateById(posts, data);
    }

    /** Applied after a successful create. */
    method SetCreated(data: Post)
      modifies this
      ensures posts == AppendPost(old(posts), data)
      ensures HasId(posts, data.id)
      ensures IdUnique(posts) <==> IdUnique(old(posts)) && !HasId(old(posts), data.id)
    {
      AppendHasId(posts, data);
      AppendUniqueIff(posts, data);
      posts := AppendPost(posts, data);
    }

    /** Applied after a successful delete. */
    method SetDeleted(postId: int)
      modifies this
      ensures posts == RemoveById(old(posts), postId)
      ensures !HasId(posts, postId)
      ensures IsSubsequence(posts, old(posts))
      ensures IdUnique(old(posts)) ==> IdUnique(posts)
      ensures IdUnique(old(posts)) && HasId(old(posts), postId) ==> |posts| == |old(posts)| - 1
      ensures !HasId(old(posts), postId) ==> posts == old(posts)
    {
      RemoveIsSubsequence(posts, postId);
      if IdUnique(posts) {
        RemovePreservesUnique(posts, postId);
        if HasId(posts, postId) {
          RemoveExactlyOne(posts, postId);
        }
      }
      if !HasId(posts, postId) {
        RemoveUnknownId(posts, postId);
      }
      posts := RemoveById(posts, postId);
    }
  }
}
