/**
 * In-memory repositories with the shape of the post and comment repository
 * interfaces, standing in for the database-backed ones. Each keeps its rows
 * by id, the next id to hand out, and a log of every entity passed to
 * `Save`, so that callers can state how many writes they made.
 */
module Repositories {
  import opened Results
  import opened Entities

  class PostRepository {
    var store: map<int, Post>
    var nextId: int
    var saved: seq<Post>

    /** Ids handed out so far are positive and below `nextId`. */
    predicate Valid()
      reads this
    {
      1 <= nextId && forall id :: id in store ==> 1 <= id < nextId
    }

    constructor ()
      ensures Valid() && store == map[] && nextId == 1 && saved == []
    {
      store := map[];
      nextId := 1;
      saved := [];
    }

    /** `findById`: the stored post with this id, or `None` (PHP `null`). */
    function FindById(id: int): (r: Option<Post>)
      reads this
    {
      if id in store then Some(store[id]) else None
    }

    /**
     * `save`: records the call, stores a new row under a fresh id and
     * returns it as the database would reload it: the post's title,
     * content, image, author and timestamps with the new id and, a new row
     * having none yet, no comments. Rows already stored are kept.
     */
    method Save(post: Post) returns (persisted: Post)
      requires Valid()
      modifies this
      ensures Valid() && fresh(persisted)
      ensures saved == old(saved) + [post]
      ensures nextId == old(nextId) + 1 && store == old(store)[old(nextId) := persisted]
      ensures old(nextId) !in old(store)
      ensures persisted.id == old(nextId) && persisted.title == post.title && persisted.content == post.content
      ensures persisted.imagePath == post.imagePath && persisted.author == post.author
      ensures persisted.createdAt == post.createdAt && persisted.updatedAt == post.updatedAt
      ensures persisted.comments == []
      ensures FindById(persisted.id) == Some(persisted)
      ensures forall id :: id != persisted.id ==> FindById(id) == old(FindById(id))
    {
      persisted := new Post(nextId, post.title, post.content, post.imagePath, post.author,
                            post.createdAt, post.updatedAt, None);
      store := store[nextId := persisted];
      saved := saved + [post];
      nextId := nextId + 1;
    }
  }

  class CommentRepository {
    var store: map<int, Comment>
    var nextId: int
    var saved: seq<Comment>

    /** Ids handed out so far are positive and below `nextId`. */
    predicate Valid()
      reads this
    {
      1 <= nextId && forall id :: id in store ==> 1 <= id < nextId
    }

    constructor ()
      ensures Valid() && store == map[] && nextId == 1 && saved == []
    {
      store := map[];
      nextId := 1;
      saved := [];
    }

    /** `findById`: the stored comment with this id, or `None` (PHP `null`). */
    function FindById(id: int): (r: Option<Comment>)
      reads this
    {
      if id in store then Some(store[id]) else None
    }

    /**
     * `save`: records the call, stores a new row under a fresh id and
     * returns it with the comment's content, author, post and timestamps.
     */
    method Save(comment: Comment) returns (persisted: Comment)
      requires Valid()
      modifies this
      ensures Valid() && fresh(persisted)
      ensures saved == old(saved) + [comment]
      ensures nextId == old(nextId) + 1 && store == old(store)[old(nextId) := persisted]
      ensures old(nextId) !in old(store)
      ensures persisted.id == old(nextId) && persisted.content == comment.content && persisted.author == comment.author
      ensures persisted.postId == comment.postId
      ensures persisted.createdAt == comment.createdAt && persisted.updatedAt == comment.updatedAt
      ensures FindById(persisted.id) == Some(persisted)
      ensures forall id :: id != persisted.id ==> FindById(id) == old(FindById(id))
    {
      persisted := new Comment(nextId, comment.content, comment.author, comment.postId,
                               comment.createdAt, comment.updatedAt);
      store := store[nextId := persisted];
      saved := saved + [comment];
      nextId := nextId + 1;
    }
  }
}
