/**
 * The two write use cases. Each is a straight line: look up what the
 * command refers to (failing if absent), build a new entity with id 0 and
 * its two timestamps from two readings of the clock, and save it once.
 * The readings (`new \DateTime()`, called once per timestamp) are the
 * `createdNow` and `updatedNow` arguments; the user table that
 * `User::findOrFail` reads is the `users` map.
 */
module UseCases {
  import opened Results
  import opened Timestamps
  import opened Entities
  import opened Commands
  import opened Repositories

  /** The exceptions the use cases let through: "Post not found" and the user lookup's not-found. */
  datatype UseCaseError = PostNotFound | UserNotFound(id: int)

  /** The post CreatePostUseCase builds before saving it. */
  predicate IsNewPost(post: Post, command: CreatePostCommand, author: User, createdNow: DateTime, updatedNow: DateTime)
    reads post
  {
    && post.id == 0 && post.title == command.title && post.content == command.content
    && post.imagePath == command.imagePath && post.author == author
    && post.createdAt == createdNow && post.updatedAt == updatedNow && post.comments == []
  }

  /** The comment AddCommentUseCase builds before saving it. */
  predicate IsNewComment(comment: Comment, command: AddCommentCommand, author: User, createdNow: DateTime, updatedNow: DateTime)
    reads comment
  {
    && comment.id == 0 && comment.content == command.content && comment.author == author
    && comment.postId == command.postId && comment.createdAt == createdNow && comment.updatedAt == updatedNow
  }

  class CreatePostUseCase {
    const postRepository: PostRepository

    constructor (postRepository: PostRepository)
      ensures this.postRepository == postRepository
    {
      this.postRepository := postRepository;
    }

    /**
     * An unknown author fails with nothing written. Otherwise exactly one
     * post is saved, the one the command describes, and the result is the
     * row `save` returned.
     */
    method Execute(command: CreatePostCommand, users: map<int, User>, createdNow: DateTime, updatedNow: DateTime)
      returns (r: Result<Post, UseCaseError>)
      requires postRepository.Valid()
      modifies postRepository
      ensures postRepository.Valid()
      ensures command.authorId !in users ==> r == Failure(UserNotFound(command.authorId)) && unchanged(postRepository)
      ensures command.authorId in users ==>
        && r.Success? && fresh(r.value)
        && |postRepository.saved| == |old(postRepository.saved)| + 1
        && postRepository.saved[..|old(postRepository.saved)|] == old(postRepository.saved)
        && IsNewPost(postRepository.saved[|old(postRepository.saved)|], command, users[command.authorId], createdNow, updatedNow)
        && postRepository.store == old(postRepository.store)[old(postRepository.nextId) := r.value]
        && r.value.id == old(postRepository.nextId) && r.value.title == command.title
        && r.value.content == command.content && r.value.imagePath == command.imagePath
        && r.value.author == users[command.authorId] && r.value.comments == []
        && r.value.createdAt == createdNow && r.value.updatedAt == updatedNow
    {
      if command.authorId !in users {
        return Failure(UserNotFound(command.authorId));
      }
      var author := users[command.authorId];
      var post := new Post(0, command.title, command.content, command.imagePath, author, createdNow, updatedNow, None);
      var persisted := postRepository.Save(post);
      r := Success(persisted);
    }
  }

  class AddCommentUseCase {
    const commentRepository: CommentRepository
    const postRepository: PostRepository

    constructor (commentRepository: CommentRepository, postRepository: PostRepository)
      ensures this.commentRepository == commentRepository && this.postRepository == postRepository
    {
      this.commentRepository := commentRepository;
      this.postRepository := postRepository;
    }

    /**
     * A missing post fails first, then an unknown author; neither writes.
     * Otherwise exactly one comment is saved, the one the command
     * describes, and the result is the row `save` returned. The post
     * repository is only read.
     */
    method Execute(command: AddCommentCommand, users: map<int, User>, createdNow: DateTime, updatedNow: DateTime)
      returns (r: Result<Comment, UseCaseError>)
      requires commentRepository.Valid()
      modifies commentRepository
      ensures commentRepository.Valid() && unchanged(postRepository)
      ensures postRepository.FindById(command.postId).None? ==> r == Failure(PostNotFound) && unchanged(commentRepository)
      ensures postRepository.FindById(command.postId).Some? && command.authorId !in users
        ==> r == Failure(UserNotFound(command.authorId)) && unchanged(commentRepository)
      ensures postRepository.FindById(command.postId).Some? && command.authorId in users ==>
        && r.Success? && fresh(r.value)
        && |commentRepository.saved| == |old(commentRepository.saved)| + 1
        && commentRepository.saved[..|old(commentRepository.saved)|] == old(commentRepository.saved)
        && IsNewComment(commentRepository.saved[|old(commentRepository.saved)|], command, users[command.authorId], createdNow, updatedNow)
        && commentRepository.store == old(commentRepository.store)[old(commentRepository.nextId) := r.value]
        && r.value.id == old(commentRepository.nextId) && r.value.content == command.content
        && r.value.author == users[command.authorId] && r.value.postId == command.postId
        && r.value.createdAt == createdNow && r.value.updatedAt == updatedNow
    {
      var post := postRepository.FindById(command.postId);
      if post.None? {
        return Failure(PostNotFound);
      }
      if command.authorId !in users {
        return Failure(UserNotFound(command.authorId));
      }
      var author := users[command.authorId];
      var comment := new Comment(0, command.content, author, command.postId, createdNow, updatedNow);
      var persisted := commentRepository.Save(comment);
      r := Success(persisted);
    }
  }
}
