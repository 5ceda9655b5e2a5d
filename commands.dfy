/**
 * The two input bundles. Each constructor builds its value objects at once
 * (fail-fast), in a fixed order, and stores the other arguments untouched.
 * The getters are the datatype fields.
 */
module Commands {
  import opened Results
  import opened PhpStrings
  import opened ValueObjects

  datatype CreatePostCommand = CreatePostCommand(title: PostTitle, content: PostContent, imagePath: Option<string>, authorId: int)

  /** True when `raw` would be refused by a value object with this byte bound. */
  predicate Refused(raw: Bytes, limit: nat) {
    PhpEmpty(Trim(raw)) || |raw| > limit
  }

  /** `new CreatePostCommand($title, $content, $imagePath, $authorId)`: the title is validated first. */
  function NewCreatePostCommand(title: Bytes, content: Bytes, imagePath: Option<string>, authorId: int)
    : (r: Result<CreatePostCommand, ValidationError>)
    ensures r.Success? <==> !Refused(title, POST_TITLE_MAX_BYTES) && !Refused(content, POST_CONTENT_MAX_BYTES)
    ensures Refused(title, POST_TITLE_MAX_BYTES) ==> r.Failure? && r.error.subject == PostTitleSubject
    ensures !Refused(title, POST_TITLE_MAX_BYTES) && Refused(content, POST_CONTENT_MAX_BYTES)
      ==> r.Failure? && r.error.subject == PostContentSubject
    ensures r.Success? ==> r.value.title.GetValue() == Trim(title) && r.value.content.GetValue() == Trim(content)
    ensures r.Success? ==> r.value.imagePath == imagePath && r.value.authorId == authorId
  {
    var t := NewPostTitle(title);
    if t.Failure? then
      assert Refused(title, POST_TITLE_MAX_BYTES) && t.error.subject == PostTitleSubject;
      Failure(t.error)
    else
      var c := NewPostContent(content);
      if c.Failure? then
        assert Refused(content, POST_CONTENT_MAX_BYTES) && c.error.subject == PostContentSubject;
        Failure(c.error)
      else Success(CreatePostCommand(t.value, c.value, imagePath, authorId))
  }

  /** The error a failed command reports is exactly the one its first failing value object throws. */
  lemma CreatePostCommandError(title: Bytes, content: Bytes, imagePath: Option<string>, authorId: int)
    ensures NewPostTitle(title).Failure? ==> NewCreatePostCommand(title, content, imagePath, authorId) == Failure(NewPostTitle(title).error)
    ensures NewPostTitle(title).Success? && NewPostContent(content).Failure?
      ==> NewCreatePostCommand(title, content, imagePath, authorId) == Failure(NewPostContent(content).error)
  {
  }

  datatype AddCommentCommand = AddCommentCommand(content: CommentContent, postId: int, authorId: int)

  /** `new AddCommentCommand($content, $postId, $authorId)`: only the content is validated. */
  function NewAddCommentCommand(content: Bytes, postId: int, authorId: int): (r: Result<AddCommentCommand, ValidationError>)
    ensures r.Success? <==> !Refused(content, COMMENT_CONTENT_MAX_BYTES)
    ensures r.Failure? ==> r == Failure(NewCommentContent(content).error)
    ensures r.Success? ==> r.value.content.GetValue() == Trim(content)
    ensures r.Success? ==> r.value.postId == postId && r.value.authorId == authorId
  {
    match NewCommentContent(content)
    case Failure(e) => Failure(e)
    case Success(c) => Success(AddCommentCommand(c, postId, authorId))
  }
}
