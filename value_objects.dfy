/**
 * The three self-validating value objects of the domain: PostTitle,
 * PostContent and CommentContent. Each constructor rejects a string whose
 * trim is "empty" in PHP's sense, then one whose byte length (measured
 * before trimming) is over the bound, and otherwise stores the trimmed
 * string. A value of each subset type below can only hold what the
 * constructor stores.
 */
module ValueObjects {
  import opened Results
  import opened PhpStrings

  const POST_TITLE_MAX_BYTES: nat := 255
  const POST_CONTENT_MAX_BYTES: nat := 10000
  const COMMENT_CONTENT_MAX_BYTES: nat := 1000

  /** Which value object refused its input. */
  datatype Subject = PostTitleSubject | PostContentSubject | CommentContentSubject

  /** "cannot be empty" or "cannot exceed <limit> characters". */
  datatype Reason = Empty | TooLong(limit: nat)

  /** The `InvalidArgumentException` a value object constructor throws. */
  datatype ValidationError = InvalidArgument(subject: Subject, reason: Reason)

  /** What a constructor may store: non-empty, not "0", within the bound, already trimmed. */
  predicate IsStoredText(v: Bytes, limit: nat) {
    !PhpEmpty(v) && |v| <= limit && NoTrimEnds(v)
  }

  /** The guard shared by the three constructors: empty check, then byte length, then trim. */
  function Validate(subject: Subject, raw: Bytes, limit: nat): (r: Result<Bytes, ValidationError>)
    ensures r.Failure? ==> r.error.subject == subject
    ensures r.Success? ==> r.value == Trim(raw) && IsStoredText(r.value, limit)
  {
    if PhpEmpty(Trim(raw)) then Failure(InvalidArgument(subject, Empty))
    else if |raw| > limit then Failure(InvalidArgument(subject, TooLong(limit)))
    else Success(Trim(raw))
  }

  /** A stored value passes the guard again unchanged. */
  lemma RevalidateStored(subject: Subject, v: Bytes, limit: nat)
    requires IsStoredText(v, limit)
    ensures Validate(subject, v, limit) == Success(v)
  {
    TrimOfNoTrimEnds(v);
  }

  /**
   * The emptiness check comes first: an input made only of trim bytes is
   * reported "empty" whatever its length, and so is "0" between any trim
   * bytes.
   */
  lemma BlankIsEmpty(subject: Subject, left: Bytes, middle: Bytes, right: Bytes, limit: nat)
    requires AllTrimBytes(left) && AllTrimBytes(right)
    requires middle == [] || middle == [DIGIT_ZERO]
    ensures Validate(subject, left + middle + right, limit) == Failure(InvalidArgument(subject, Empty))
  {
    var raw := left + middle + right;
    assert raw[..|left|] == left;
    assert raw[|left| + |middle|..] == right;
    assert raw[|left|..|left| + |middle|] == middle;
    TrimIsCore(raw, |left|, |left| + |middle|);
  }

  /**
   * The bound is checked on the untrimmed input: trailing trim bytes that
   * push the length over the bound make the input fail although its trim
   * would fit.
   */
  lemma PaddingCountsTowardsBound(subject: Subject, core: Bytes, pad: Bytes, limit: nat)
    requires !PhpEmpty(core) && NoTrimEnds(core) && AllTrimBytes(pad)
    requires |core| <= limit < |core| + |pad|
    ensures Trim(core + pad) == core
    ensures Validate(subject, core + pad, limit) == Failure(InvalidArgument(subject, TooLong(limit)))
  {
    var raw := core + pad;
    assert raw[..0] == [] && raw[|core|..] == pad && raw[0..|core|] == core;
    TrimIsCore(raw, 0, |core|);
  }

  // PostTitle

  datatype PostTitleValue = PostTitleValue(value: Bytes) {
    /** `getValue()` */
    function GetValue(): Bytes { value }
    /** `__toString()` */
    function ToString(): Bytes { value }
  }

  type PostTitle = t: PostTitleValue | IsStoredText(t.value, POST_TITLE_MAX_BYTES)
    witness PostTitleValue([LETTER_A])

  /** `new PostTitle($value)` */
  function NewPostTitle(raw: Bytes): (r: Result<PostTitle, ValidationError>)
    ensures r == Failure(InvalidArgument(PostTitleSubject, Empty)) <==> PhpEmpty(Trim(raw))
    ensures r == Failure(InvalidArgument(PostTitleSubject, TooLong(POST_TITLE_MAX_BYTES)))
        <==> !PhpEmpty(Trim(raw)) && |raw| > POST_TITLE_MAX_BYTES
    ensures r.Success? <==> !PhpEmpty(Trim(raw)) && |raw| <= POST_TITLE_MAX_BYTES
    ensures r.Success? ==> r.value.GetValue() == Trim(raw) && IsStoredText(r.value.GetValue(), POST_TITLE_MAX_BYTES)
  {
    match Validate(PostTitleSubject, raw, POST_TITLE_MAX_BYTES)
    case Success(v) => Success(PostTitleValue(v))
    case Failure(e) => Failure(e)
  }

  /** Both accessors give the stored value, and re-constructing from it gives the same title. */
  lemma PostTitleRoundTrip(t: PostTitle)
    ensures t.ToString() == t.GetValue() == t.value
    ensures NewPostTitle(t.GetValue()) == Success(t)
  {
    RevalidateStored(PostTitleSubject, t.value, POST_TITLE_MAX_BYTES);
  }

  /** A blank input is "empty" at any length; so is "0" between trim bytes. */
  lemma PostTitleBlankIsEmpty(left: Bytes, middle: Bytes, right: Bytes)
    requires AllTrimBytes(left) && AllTrimBytes(right)
    requires middle == [] || middle == [DIGIT_ZERO]
    ensures NewPostTitle(left + middle + right) == Failure(InvalidArgument(PostTitleSubject, Empty))
  {
    BlankIsEmpty(PostTitleSubject, left, middle, right, POST_TITLE_MAX_BYTES);
  }

  /** Trailing trim bytes count towards the 255-byte bound although they are not stored. */
  lemma PostTitlePaddingCounts(core: Bytes, pad: Bytes)
    requires !PhpEmpty(core) && NoTrimEnds(core) && AllTrimBytes(pad)
    requires |core| <= POST_TITLE_MAX_BYTES < |core| + |pad|
    ensures NewPostTitle(core + pad) == Failure(InvalidArgument(PostTitleSubject, TooLong(255)))
  {
    PaddingCountsTowardsBound(PostTitleSubject, core, pad, POST_TITLE_MAX_BYTES);
  }

  // PostContent

  datatype PostContentValue = PostContentValue(value: Bytes) {
    /** `getValue()` */
    function GetValue(): Bytes { value }
    /** `__toString()` */
    function ToString(): Bytes { value }
  }

  type PostContent = c: PostContentValue | IsStoredText(c.value, POST_CONTENT_MAX_BYTES)
    witness PostContentValue([LETTER_A])

  /** `new PostContent($value)` */
  function NewPostContent(raw: Bytes): (r: Result<PostContent, ValidationError>)
    ensures r == Failure(InvalidArgument(PostContentSubject, Empty)) <==> PhpEmpty(Trim(raw))
    ensures r == Failure(InvalidArgument(PostContentSubject, TooLong(POST_CONTENT_MAX_BYTES)))
        <==> !PhpEmpty(Trim(raw)) && |raw| > POST_CONTENT_MAX_BYTES
    ensures r.Success? <==> !PhpEmpty(Trim(raw)) && |raw| <= POST_CONTENT_MAX_BYTES
    ensures r.Success? ==> r.value.GetValue() == Trim(raw) && IsStoredText(r.value.GetValue(), POST_CONTENT_MAX_BYTES)
  {
    match Validate(PostContentSubject, raw, POST_CONTENT_MAX_BYTES)
    case Success(v) => Success(PostContentValue(v))
    case Failure(e) => Failure(e)
  }

  lemma PostContentRoundTrip(c: PostContent)
    ensures c.ToString() == c.GetValue() == c.value
    ensures NewPostContent(c.GetValue()) == Success(c)
  {
    RevalidateStored(PostContentSubject, c.value, POST_CONTENT_MAX_BYTES);
  }

  /** A blank input is "empty" at any length; so is "0" between trim bytes. */
  lemma PostContentBlankIsEmpty(left: Bytes, middle: Bytes, right: Bytes)
    requires AllTrimBytes(left) && AllTrimBytes(right)
    requires middle == [] || middle == [DIGIT_ZERO]
    ensures NewPostContent(left + middle + right) == Failure(InvalidArgument(PostContentSubject, Empty))
  {
    BlankIsEmpty(PostContentSubject, left, middle, right, POST_CONTENT_MAX_BYTES);
  }

  /** Trailing trim bytes count towards the 10000-byte bound although they are not stored. */
  lemma PostContentPaddingCounts(core: Bytes, pad: Bytes)
    requires !PhpEmpty(core) && NoTrimEnds(core) && AllTrimBytes(pad)
    requires |core| <= POST_CONTENT_MAX_BYTES < |core| + |pad|
    ensures NewPostContent(core + pad) == Failure(InvalidArgument(PostContentSubject, TooLong(10000)))
  {
    PaddingCountsTowardsBound(PostContentSubject, core, pad, POST_CONTENT_MAX_BYTES);
  }

  // CommentContent

  datatype CommentContentValue = CommentContentValue(value: Bytes) {
    /** `getValue()` */
    function GetValue(): Bytes { value }
    /** `__toString()` */
    function ToString(): Bytes { value }
  }

  type CommentContent = c: CommentContentValue | IsStoredText(c.value, COMMENT_CONTENT_MAX_BYTES)
    witness CommentContentValue([LETTER_A])

  /** `new CommentContent($value)` */
  function NewCommentContent(raw: Bytes): (r: Result<CommentContent, ValidationError>)
    ensures r == Failure(InvalidArgument(CommentContentSubject, Empty)) <==> PhpEmpty(Trim(raw))
    ensures r == Failure(InvalidArgument(CommentContentSubject, TooLong(COMMENT_CONTENT_MAX_BYTES)))
        <==> !PhpEmpty(Trim(raw)) && |raw| > COMMENT_CONTENT_MAX_BYTES
    ensures r.Success? <==> !PhpEmpty(Trim(raw)) && |raw| <= COMMENT_CONTENT_MAX_BYTES
    ensures r.Success? ==> r.value.GetValue() == Trim(raw) && IsStoredText(r.value.GetValue(), COMMENT_CONTENT_MAX_BYTES)
  {
    match Validate(CommentContentSubject, raw, COMMENT_CONTENT_MAX_BYTES)
    case Success(v) => Success(CommentContentValue(v))
    case Failure(e) => Failure(e)
  }

  lemma CommentContentRoundTrip(c: CommentContent)
    ensures c.ToString() == c.GetValue() == c.value
    ensures NewCommentContent(c.GetValue()) == Success(c)
  {
    RevalidateStored(CommentContentSubject, c.value, COMMENT_CONTENT_MAX_BYTES);
  }

  /** A blank input is "empty" at any length; so is "0" between trim bytes. */
  lemma CommentContentBlankIsEmpty(left: Bytes, middle: Bytes, right: Bytes)
    requires AllTrimBytes(left) && AllTrimBytes(right)
    requires middle == [] || middle == [DIGIT_ZERO]
    ensures NewCommentContent(left + middle + right) == Failure(InvalidArgument(CommentContentSubject, Empty))
  {
    BlankIsEmpty(CommentContentSubject, left, middle, right, COMMENT_CONTENT_MAX_BYTES);
  }

  /** Trailing trim bytes count towards the 1000-byte bound although they are not stored. */
  lemma CommentContentPaddingCounts(core: Bytes, pad: Bytes)
    requires !PhpEmpty(core) && NoTrimEnds(core) && AllTrimBytes(pad)
    requires |core| <= COMMENT_CONTENT_MAX_BYTES < |core| + |pad|
    ensures NewCommentContent(core + pad) == Failure(InvalidArgument(CommentContentSubject, TooLong(1000)))
  {
    PaddingCountsTowardsBound(CommentContentSubject, core, pad, COMMENT_CONTENT_MAX_BYTES);
  }
}
