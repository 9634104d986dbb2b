/**
 * The posts of the server: a table keyed by id. The listing is every row,
 * newest first; posts with the same timestamp stay in the order the table
 * returned them, as a stable sort leaves them.
 */
module PostService {
  import opened Maybe
  import opened Entities
  import Store

  /** Descending `createdAt`: the order the comparator `p2.createdAt.compareTo(p1.createdAt)` asks for. */
  predicate NewestFirst(s: seq<Post>)
  {
    forall i, j :: 0 <= i < j < |s| ==> s[i].createdAt >= s[j].createdAt
  }

  /** The posts of `s` stamped `t`, in their order in `s`. */
  function WithTime(s: seq<Post>, t: int): seq<Post>
  {
    if s == [] then []
    else if s[0].createdAt == t then [s[0]] + WithTime(s[1..], t)
    else WithTime(s[1..], t)
  }

  /** `p` goes in front of the first post that is not newer than it. */
  function Insert(p: Post, s: seq<Post>): seq<Post>
  {
    if s == [] || s[0].createdAt <= p.createdAt then [p] + s
    else [s[0]] + Insert(p, s[1..])
  }

  /** `List.sort` with the newest-first comparator: a stable sort, written as insertion from the back. */
  function SortNewestFirst(s: seq<Post>): seq<Post>
  {
    if s == [] then [] else Insert(s[0], SortNewestFirst(s[1..]))
  }

  lemma {:induction false} InsertPermutes(p: Post, s: seq<Post>)
    ensures multiset(Insert(p, s)) == multiset(s) + multiset{p}
  {
    if s != [] && s[0].createdAt > p.createdAt {
      InsertPermutes(p, s[1..]);
      assert s == [s[0]] + s[1..];
    }
  }

  lemma {:induction false} InsertSorted(p: Post, s: seq<Post>)
    requires NewestFirst(s)
    ensures NewestFirst(Insert(p, s))
  {
    if s != [] && s[0].createdAt > p.createdAt {
      InsertSorted(p, s[1..]);
      InsertPermutes(p, s[1..]);
      var r := Insert(p, s[1..]);
      forall k | 0 <= k < |r|
        ensures s[0].createdAt >= r[k].createdAt
      {
        assert r[k] in multiset(r);
        if r[k] != p {
          assert r[k] in multiset(s[1..]);
          var i :| 0 <= i < |s[1..]| && s[1..][i] == r[k];
          assert s[i + 1] == r[k];
        }
      }
    }
  }

  /** Inserting `p` adds it in front of the posts sharing its timestamp and moves nothing else. */
  lemma {:induction false} InsertWithTime(p: Post, s: seq<Post>, t: int)
    ensures WithTime(Insert(p, s), t) == if p.createdAt == t then [p] + WithTime(s, t) else WithTime(s, t)
  {
    if s == [] || s[0].createdAt <= p.createdAt {
      assert ([p] + s)[1..] == s;
    } else {
      InsertWithTime(p, s[1..], t);
      assert ([s[0]] + Insert(p, s[1..]))[1..] == Insert(p, s[1..]);
    }
  }

  /** The sorted list is newest first. */
  lemma {:induction false} SortSorted(s: seq<Post>)
    ensures NewestFirst(SortNewestFirst(s))
  {
    if s != [] {
      SortSorted(s[1..]);
      InsertSorted(s[0], SortNewestFirst(s[1..]));
    }
  }

  /** The sorted list holds exactly the posts it was given. */
  lemma {:induction false} SortPermutes(s: seq<Post>)
    ensures multiset(SortNewestFirst(s)) == multiset(s)
  {
    if s != [] {
      SortPermutes(s[1..]);
      InsertPermutes(s[0], SortNewestFirst(s[1..]));
      assert s == [s[0]] + s[1..];
    }
  }

  /** Stability: the posts sharing any one timestamp keep their relative order. */
  lemma {:induction false} SortStable(s: seq<Post>, t: int)
    ensures WithTime(SortNewestFirst(s), t) == WithTime(s, t)
  {
    if s != [] {
      SortStable(s[1..], t);
      InsertWithTime(s[0], SortNewestFirst(s[1..]), t);
    }
  }

  class PostService {
    /** The post table. */
    var posts: map<int, Post>
    /** The next value of the identity column. */
    var nextId: int

    /** Each row sits under its own id, below the identity counter. */
    ghost predicate Valid()
      reads this
    {
      0 < nextId && forall id :: id in posts ==> posts[id].id == id && id < nextId
    }

    constructor ()
      ensures Valid() && posts == map[] && nextId == 1
    {
      posts, nextId := map[], 1;
    }

    /**
     * `getAllPosts`: every row, newest first, rows with equal timestamps in
     * table order.
     */
    method GetAllPosts() returns (list: seq<Post>)
      ensures list == SortNewestFirst(Store.FindAll(posts))
      ensures multiset(list) == multiset(Store.FindAll(posts))
      ensures |list| == |posts| && forall id :: id in posts ==> posts[id] in list
      ensures NewestFirst(list)
      ensures forall t :: WithTime(list, t) == WithTime(Store.FindAll(posts), t)
    {
      var rows := Store.FindAll(posts);
      list := SortNewestFirst(rows);
      SortSorted(rows);
      SortPermutes(rows);
      assert |list| == |rows| by {
        assert |multiset(list)| == |multiset(rows)|;
      }
      forall id | id in posts
        ensures posts[id] in list
      {
        assert posts[id] in multiset(rows);
      }
      forall t
        ensures WithTime(list, t) == WithTime(rows, t)
      {
        SortStable(rows, t);
      }
    }

    /** `getPostById`. */
    method GetPostById(id: int) returns (r: Option<Post>)
      ensures r == Store.FindById(posts, id)
    {
      r := Store.FindById(posts, id);
    }

    /**
     * `createPost`: the row is stored as sent, under a new id (the id in the
     * request is not used); its timestamp is the one the request carries.
     */
    method CreatePost(p: Post) returns (saved: Post)
      requires Valid()
      modifies this
      ensures Valid()
      ensures saved == p.(id := old(nextId)) && old(nextId) !in old(posts)
      ensures posts == old(posts)[old(nextId) := saved] && nextId == old(nextId) + 1
    {
      saved := p.(id := nextId);
      posts := posts[nextId := saved];
      nextId := nextId + 1;
    }

    /** `updatePost`: only the title and the content change; an absent id changes nothing. */
    method UpdatePost(id: int, details: Post) returns (r: Option<Post>)
      requires Valid()
      modifies this`posts
      ensures Valid()
      ensures id !in old(posts) ==> r == None && posts == old(posts)
      ensures id in old(posts) ==>
        var saved := old(posts)[id].(title := details.title, content := details.content);
        r == Some(saved) && posts == old(posts)[id := saved]
    {
      if id !in posts {
        return None;
      }
      var existing := posts[id].(title := details.title, content := details.content);
      posts := posts[id := existing];
      r := Some(existing);
    }

    /** `deletePost`: true exactly when the row existed, and then it is gone. */
    method DeletePost(id: int) returns (deleted: bool)
      requires Valid()
      modifies this`posts
      ensures Valid()
      ensures deleted <==> id in old(posts)
      ensures posts == old(posts) - {id}
    {
      deleted := id in posts;
      if deleted {
        posts := posts - {id};
      }
    }

    /** `count()` of the post table. */
    method Count() returns (n: int)
      ensures n == |posts|
    {
      n := |posts|;
    }
  }

  /** A table holding ids 1 and 2 lists row 1 first. */
  lemma TwoRows(posts: map<int, Post>)
    requires posts.Keys == {1, 2}
    ensures Store.FindAll(posts) == [posts[1], posts[2]]
  {
    Store.SortedPair(1, 2);
    var rows := Store.Rows(posts, [1, 2]);
    assert rows == [posts[1], posts[2]];
  }

  /** Two posts are listed in the order their timestamps ask for. */
  lemma SortTwo(a: Post, b: Post)
    ensures SortNewestFirst([a, b]) == if b.createdAt <= a.createdAt then [a, b] else [b, a]
  {
    assert [a, b][1..] == [b] && [b][1..] == [];
    assert SortNewestFirst([b]) == Insert(b, []) == [b];
    assert SortNewestFirst([a, b]) == Insert(a, [b]);
    assert Insert(a, []) == [a];
  }

  /**
   * Two posts created one after the other are listed newer first; with equal
   * timestamps the listing keeps table order, so the first one created leads.
   */
  method ListTwo(first: Post, second: Post) returns (list: seq<Post>)
    ensures first.createdAt < second.createdAt ==> list == [second.(id := 2), first.(id := 1)]
    ensures first.createdAt >= second.createdAt ==> list == [first.(id := 1), second.(id := 2)]
  {
    var service := new PostService();
    var a := service.CreatePost(first);
    var b := service.CreatePost(second);
    assert service.posts == map[1 := a, 2 := b];
    assert service.posts.Keys == {1, 2};
    TwoRows(service.posts);
    SortTwo(a, b);
    list := service.GetAllPosts();
  }
}
