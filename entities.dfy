/**
 * The two domain entities. Both are objects whose update methods reassign
 * their fields in place; the clock the PHP code reads with `new \DateTime()`
 * is the explicit `now` argument.
 */
module Entities {
  import opened Results
  import opened ValueObjects
  import opened Timestamps

  /** The application's user record, as far as this core reads it. */
  datatype User = User(id: int, name: string, email: string)

  class Comment {
    var id: int
    var content: CommentContent
    var author: User
    var postId: int
    var createdAt: DateTime
    var updatedAt: DateTime

    /** Stores every argument as given. */
    constructor (id: int, content: CommentContent, author: User, postId: int, createdAt: DateTime, updatedAt: DateTime)
      ensures this.id == id && this.content == content && this.author == author
      ensures this.postId == postId && this.createdAt == createdAt && this.updatedAt == updatedAt
    {
      this.id := id;
      this.content := content;
      this.author := author;
      this.postId := postId;
      this.createdAt := createdAt;
      this.updatedAt := updatedAt;
    }

    /** Replaces the content and stamps the update; identity, author, post and creation time stay. */
    method UpdateContent(content: CommentContent, now: DateTime)
      modifies this
      ensures this.content == content && updatedAt == now
      ensures id == old(id) && author == old(author) && postId == old(postId) && createdAt == old(createdAt)
    {
      this.content := content;
      updatedAt := now;
    }

    /** `isOwnedBy`: the comment's author has the user's id. */
    predicate IsOwnedBy(user: User)
      reads this
    {
      author.id == user.id
    }
  }

  class Post {
    var id: int
    var title: PostTitle
    var content: PostContent
    var imagePath: Option<string>
    var author: User
    var createdAt: DateTime
    var updatedAt: DateTime
    var comments: seq<Comment>

    /** Stores every argument as given; a missing comment collection becomes an empty one. */
    constructor (id: int, title: PostTitle, content: PostContent, imagePath: Option<string>, author: User,
                 createdAt: DateTime, updatedAt: DateTime, comments: Option<seq<Comment>>)
      ensures this.id == id && this.title == title && this.content == content && this.imagePath == imagePath
      ensures this.author == author && this.createdAt == createdAt && this.updatedAt == updatedAt
      ensures this.comments == if comments.Some? then comments.value else []
    {
      this.id := id;
      this.title := title;
      this.content := content;
      this.imagePath := imagePath;
      this.author := author;
      this.createdAt := createdAt;
      this.updatedAt := updatedAt;
      this.comments := if comments.Some? then comments.value else [];
    }

    /** Every comment in the collection points back at this post. The entity does not enforce it. */
    predicate CommentsBelongHere()
      reads this, comments
    {
      forall i :: 0 <= i < |comments| ==> comments[i].postId == id
    }

    method UpdateTitle(title: PostTitle, now: DateTime)
      modifies this
      ensures this.title == title && updatedAt == now
      ensures id == old(id) && content == old(content) && imagePath == old(imagePath) && author == old(author)
      ensures createdAt == old(createdAt) && comments == old(comments)
    {
      this.title := title;
      updatedAt := now;
    }

    method UpdateContent(content: PostContent, now: DateTime)
      modifies this
      ensures this.content == content && updatedAt == now
      ensures id == old(id) && title == old(title) && imagePath == old(imagePath) && author == old(author)
      ensures createdAt == old(createdAt) && comments == old(comments)
    {
      this.content := content;
      updatedAt := now;
    }

    /** Sets the image path, `None` (PHP `null`) included. */
    method UpdateImage(imagePath: Option<string>, now: DateTime)
      modifies this
      ensures this.imagePath == imagePath && updatedAt == now
      ensures id == old(id) && title == old(title) && content == old(content) && author == old(author)
      ensures createdAt == old(createdAt) && comments == old(comments)
    {
      this.imagePath := imagePath;
      updatedAt := now;
    }

    /**
     * Appends at the end of the collection and leaves every other field,
     * `updatedAt` included, as it was. A comment that points at this post
     * keeps the collection pointing at this post.
     */
    method AddComment(comment: Comment)
      modifies this
      ensures comments == old(comments) + [comment]
      ensures id == old(id) && title == old(title) && content == old(content) && imagePath == old(imagePath)
      ensures author == old(author) && createdAt == old(createdAt) && updatedAt == old(updatedAt)
      ensures old(CommentsBelongHere()) && comment.postId == id ==> CommentsBelongHere()
    {
      comments := comments + [comment];
    }

    /** `isOwnedBy`: the post's author has the user's id. */
    predicate IsOwnedBy(user: User)
      reads this
    {
      author.id == user.id
    }
  }

  /**
   * Ownership is decided by the id alone: two user records with the same id
   * own the same posts and comments whatever their names and e-mail
   * addresses, and an author always owns what they wrote.
   */
  lemma OwnershipIsById(post: Post, comment: Comment, user: User, other: User)
    requires user.id == other.id
    ensures post.IsOwnedBy(user) == post.IsOwnedBy(other)
    ensures comment.IsOwnedBy(user) == comment.IsOwnedBy(other)
    ensures post.IsOwnedBy(post.author) && comment.IsOwnedBy(comment.author)
    ensures post.IsOwnedBy(user) <==> post.author.id == user.id
    ensures comment.IsOwnedBy(user) <==> comment.author.id == user.id
  {
  }
}
