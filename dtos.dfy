/**
 * The JSON projections of the entities. Each is a pure function of the
 * entity's fields: value objects become their stored strings, the author
 * becomes `{id, name, email}`, timestamps are formatted `Y-m-d H:i:s`, and
 * a post's comments are projected one by one in their order.
 */
module DTOs {
  import opened Results
  import opened PhpStrings
  import opened Timestamps
  import opened Entities

  datatype AuthorDTO = AuthorDTO(id: int, name: string, email: string)

  datatype CommentDTO = CommentDTO(
    id: int, content: Bytes, author: AuthorDTO, postId: int, createdAt: string, updatedAt: string)

  datatype PostDTO = PostDTO(
    id: int, title: Bytes, content: Bytes, image: Option<string>, author: AuthorDTO,
    createdAt: string, updatedAt: string, comments: seq<CommentDTO>)

  /** The `author` array: the user's id, name and e-mail address. */
  function AuthorOf(user: User): (r: AuthorDTO)
  {
    AuthorDTO(user.id, user.name, user.email)
  }

  /** `CommentDTO::fromEntity`, which is `new CommentDTO($comment)`. */
  function CommentFromEntity(comment: Comment): (r: CommentDTO)
    reads comment
  {
    CommentDTO(comment.id, comment.content.GetValue(), AuthorOf(comment.author), comment.postId,
               Format(comment.createdAt), Format(comment.updatedAt))
  }

  /** The comments of a post, projected one by one (the `map` in `new PostDTO`). */
  function CommentsFromEntities(comments: seq<Comment>): (r: seq<CommentDTO>)
    reads comments
    ensures |r| == |comments|
    ensures forall i :: 0 <= i < |comments| ==> r[i] == CommentFromEntity(comments[i])
  {
    seq(|comments|, i requires 0 <= i < |comments| reads comments => CommentFromEntity(comments[i]))
  }

  /**
   * Projecting a collection with one more comment at the end gives the
   * earlier projection, unchanged and in the same order, followed by that
   * comment's projection.
   */
  lemma CommentsFromEntitiesAppend(comments: seq<Comment>, comment: Comment)
    ensures var r := CommentsFromEntities(comments + [comment]);
      && |r| == |CommentsFromEntities(comments)| + 1
      && (forall i :: 0 <= i < |comments| ==> r[i] == CommentsFromEntities(comments)[i])
      && r[|comments|] == CommentFromEntity(comment)
  {
    var all := comments + [comment];
    forall i | 0 <= i < |comments|
      ensures CommentsFromEntities(all)[i] == CommentsFromEntities(comments)[i]
    {
      assert all[i] == comments[i];
    }
    assert all[|comments|] == comment;
  }

  /** `PostDTO::fromEntity`, which is `new PostDTO($post)`. */
  function PostFromEntity(post: Post): (r: PostDTO)
    reads post, post.comments
  {
    PostDTO(post.id, post.title.GetValue(), post.content.GetValue(), post.imagePath, AuthorOf(post.author),
            Format(post.createdAt), Format(post.updatedAt), CommentsFromEntities(post.comments))
  }

  /**
   * What a comment's projection holds: its id, stored content and post id,
   * its author's `{id, name, email}`, and its two timestamps formatted so
   * that, for four-digit years, they read back as the entity's own.
   */
  lemma CommentProjection(comment: Comment)
    ensures var r := CommentFromEntity(comment);
      && r.id == comment.id && r.content == comment.content.value && r.postId == comment.postId
      && r.author == AuthorDTO(comment.author.id, comment.author.name, comment.author.email)
      && (0 <= comment.createdAt.year < 10000 ==> |r.createdAt| == 19 && Parse(r.createdAt) == Some(comment.createdAt))
      && (0 <= comment.updatedAt.year < 10000 ==> |r.updatedAt| == 19 && Parse(r.updatedAt) == Some(comment.updatedAt))
  {
    if 0 <= comment.createdAt.year < 10000 { ParseFormat(comment.createdAt); }
    if 0 <= comment.updatedAt.year < 10000 { ParseFormat(comment.updatedAt); }
  }

  /**
   * What a post's projection holds: its id, stored title and content, image
   * path (`None` included), author's `{id, name, email}`, timestamps that
   * read back as the entity's own for four-digit years, and one projected
   * comment per comment, in the same order.
   */
  lemma PostProjection(post: Post)
    ensures var r := PostFromEntity(post);
      && r.id == post.id && r.title == post.title.value && r.content == post.content.value
      && r.image == post.imagePath
      && r.author == AuthorDTO(post.author.id, post.author.name, post.author.email)
      && (0 <= post.createdAt.year < 10000 ==> |r.createdAt| == 19 && Parse(r.createdAt) == Some(post.createdAt))
      && (0 <= post.updatedAt.year < 10000 ==> |r.updatedAt| == 19 && Parse(r.updatedAt) == Some(post.updatedAt))
      && |r.comments| == |post.comments|
      && forall i :: 0 <= i < |post.comments| ==> r.comments[i] == CommentFromEntity(post.comments[i])
  {
    if 0 <= post.createdAt.year < 10000 { ParseFormat(post.createdAt); }
    if 0 <= post.updatedAt.year < 10000 { ParseFormat(post.updatedAt); }
  }

  /** Every comment of every post in `posts`: what projecting the posts reads besides the posts. */
  function CommentsOf(posts: seq<Post>): (s: set<Comment>)
    reads posts
    ensures forall i, c :: 0 <= i < |posts| && c in posts[i].comments ==> c in s
  {
    if posts == [] then {}
    else
      var s := (set c | c in posts[0].comments) + CommentsOf(posts[1..]);
      assert forall i, c :: 1 <= i < |posts| && c in posts[i].comments ==> c in s by {
        forall i, c | 1 <= i < |posts| && c in posts[i].comments
          ensures c in s
        {
          assert posts[1..][i - 1] == posts[i];
        }
      }
      s
  }

  /** `PostDTO::fromCollection`: the posts projected one by one. */
  function PostsFromCollection(posts: seq<Post>): (r: seq<PostDTO>)
    reads posts, CommentsOf(posts)
    ensures |r| == |posts|
    ensures forall i :: 0 <= i < |posts| ==> r[i] == PostFromEntity(posts[i])
  {
    seq(|posts|, i requires 0 <= i < |posts| reads posts, CommentsOf(posts) => PostFromEntity(posts[i]))
  }

  /**
   * Projecting two collections joined gives the first one's projection
   * followed by the second one's, each in its own order.
   */
  lemma PostsFromCollectionAppend(posts: seq<Post>, more: seq<Post>)
    ensures var r := PostsFromCollection(posts + more);
      && |r| == |PostsFromCollection(posts)| + |PostsFromCollection(more)|
      && (forall i :: 0 <= i < |posts| ==> r[i] == PostsFromCollection(posts)[i])
      && (forall j :: 0 <= j < |more| ==> r[|posts| + j] == PostsFromCollection(more)[j])
  {
    var all := posts + more;
    forall i | 0 <= i < |posts|
      ensures PostsFromCollection(all)[i] == PostsFromCollection(posts)[i]
    {
      assert all[i] == posts[i];
    }
    forall j | 0 <= j < |more|
      ensures PostsFromCollection(all)[|posts| + j] == PostsFromCollection(more)[j]
    {
      assert all[|posts| + j] == more[j];
    }
  }

  /**
   * `addComment` followed by a projection: the post's projection is the one
   * before with the new comment's projection appended after the earlier
   * ones, and nothing else in it changes, `updated_at` included.
   */
  method ProjectAfterAddComment(post: Post, comment: Comment) returns (before: PostDTO, after: PostDTO)
    modifies post
    ensures before == old(PostFromEntity(post)) && after == PostFromEntity(post)
    ensures after.(comments := before.comments) == before
    ensures |after.comments| == |before.comments| + 1
    ensures forall i :: 0 <= i < |before.comments| ==> after.comments[i] == before.comments[i]
    ensures after.comments[|before.comments|] == CommentFromEntity(comment)
  {
    before := PostFromEntity(post);
    ghost var earlier := post.comments;
    post.AddComment(comment);
    assert CommentsFromEntities(earlier) == before.comments;
    CommentsFromEntitiesAppend(earlier, comment);
    after := PostFromEntity(post);
  }
}
