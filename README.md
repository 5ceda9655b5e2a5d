# Blog API domain core in Dafny

This project models the domain and validation layer of the blog API
(`blog-api/app`) and the two write use cases built on it.

- **Value objects.** `PostTitle`, `PostContent` and `CommentContent` validate
  their input when they are constructed. A string is refused when PHP's
  `empty(trim($value))` holds, which includes `"0"`. It is then refused when
  its untrimmed byte length (`strlen`) is over 255, 10000 or 1000 bytes.
  Otherwise the trimmed string is stored.
- **Entities.** `Post` and `Comment` are classes whose update methods
  reassign fields in place.
- **Commands.** `CreatePostCommand` and `AddCommentCommand` build their value
  objects fail-fast, in a fixed order.
- **Use cases.** `CreatePostUseCase` and `AddCommentUseCase` look up what the
  command refers to, build a new entity with id 0, and save it once. The
  entity's creation and update times come from two separate clock readings.
- **DTOs.** `PostDTO` and `CommentDTO` project entities into JSON records.
  Timestamps are formatted `Y-m-d H:i:s`.

Modules, one per file:

| file | module | what it holds |
|---|---|---|
| `results.dfy` | `Results` | `Option` (PHP `null`) and `Result` (a thrown exception) |
| `php_strings.dfy` | `PhpStrings` | byte strings, `trim` with its default character list, `empty` |
| `value_objects.dfy` | `ValueObjects` | the three value objects, as subset types that only hold validated text, with their constructors |
| `timestamps.dfy` | `Timestamps` | calendar date-times, the `Y-m-d H:i:s` formatter, and a parser used as its inverse |
| `entities.dfy` | `Entities` | `User` as a record, plus the `Post` and `Comment` classes |
| `commands.dfy` | `Commands` | the two commands |
| `repositories.dfy` | `Repositories` | in-memory repositories with the shape of the repository interfaces |
| `use_cases.dfy` | `UseCases` | the two use cases as classes over the repositories |
| `dtos.dfy` | `DTOs` | the post and comment projections |

Some things outside PHP are made explicit:

- **The clock.** Each `new \DateTime()` call becomes a parameter. The entity
  update methods take one reading, `now`. The use cases read the clock twice,
  once for `createdAt` and once for `updatedAt`, so they take `createdNow` and
  `updatedNow`.
- **The user table.** What `User::findOrFail` reads is a `users: map<int, User>` parameter.
- **Exceptions.** A thrown exception is a `Failure` carrying the `ValidationError` or `UseCaseError` datatype.

Each repository keeps a `saved` log of every entity passed to `Save`. Use-case
contracts use it to say "nothing was written" or "exactly one entity was
written".

## Model

| member | source | states |
|---|---|---|
| PhpStrings.Trim | blog-api/app/Domain/ValueObjects/PostTitle.php:11-17 | `trim` never lengthens its input, leaves no trim byte (space, tab, LF, CR, NUL, vertical tab) at either end, and gives "" exactly when the input is made only of trim bytes |
| PhpStrings.TrimLeftSplits | blog-api/app/Domain/ValueObjects/PostTitle.php:11 | `ltrim` cuts the string at one point: only trim bytes before it, no trim byte at it, and the result is the rest of the string |
| PhpStrings.TrimRightSplits | blog-api/app/Domain/ValueObjects/PostTitle.php:11 | `rtrim` cuts the string at one point: only trim bytes after it, no trim byte just before it, and the result is the string up to it |
| PhpStrings.TrimSplits | blog-api/app/Domain/ValueObjects/PostTitle.php:17 | `trim` keeps one slice of its input, with only trim bytes around it and no trim byte at either of its ends |
| PhpStrings.TrimIsCore | blog-api/app/Domain/ValueObjects/PostTitle.php:17 | independent characterisation of `trim`: a slice with trim bytes only on either side and no trim byte at its own ends is the trim of the whole string |
| PhpStrings.TrimIdempotent | blog-api/app/Domain/ValueObjects/PostTitle.php:11-17 | trimming a trimmed string changes nothing |
| PhpStrings.TrimOfNoTrimEnds | blog-api/app/Domain/ValueObjects/PostTitle.php:17 | a string with no trim byte at either end is its own trim |
| PhpStrings.PhpEmpty | blog-api/app/Domain/ValueObjects/PostTitle.php:11 | PHP `empty()` on a string: true for "" and "0" only; `BlankIsEmpty` and the `New*` contracts state what it refuses |
| ValueObjects.Validate | blog-api/app/Domain/ValueObjects/PostTitle.php:9-18 | the guard all three constructors share: a failure names the value object; a success stores `trim(raw)`, which is not `empty`, is within the bound and has no trim byte at either end |
| ValueObjects.RevalidateStored | blog-api/app/Domain/ValueObjects/PostTitle.php:11-17 | any value the guard may store passes the guard again unchanged |
| ValueObjects.BlankIsEmpty | blog-api/app/Domain/ValueObjects/PostContent.php:11-16 | the empty check comes first: trim bytes around "" or "0" are refused as empty, whatever the length |
| ValueObjects.PaddingCountsTowardsBound | blog-api/app/Domain/ValueObjects/CommentContent.php:14-17 | the bound is measured before trimming: trailing trim bytes that push a fitting text over the bound make it fail as too long |
| ValueObjects.NewPostTitle | blog-api/app/Domain/ValueObjects/PostTitle.php:9-18 | fails with Empty iff `trim(raw)` is "" or "0"; fails with TooLong(255) iff it is not empty and `raw` has more than 255 bytes; succeeds iff neither, so exactly 255 bytes is accepted; on success stores `trim(raw)`, which is non-empty, at most 255 bytes and trimmed |
| ValueObjects.PostTitleRoundTrip | blog-api/app/Domain/ValueObjects/PostTitle.php:11-28 | `getValue()` and `__toString()` both return the stored value, and constructing a title from `getValue()` gives the same title |
| ValueObjects.PostTitleBlankIsEmpty | blog-api/app/Domain/ValueObjects/PostTitle.php:11-16 | a blank input, or "0" between trim bytes, is refused as empty at any length, including over 255 bytes |
| ValueObjects.PostTitlePaddingCounts | blog-api/app/Domain/ValueObjects/PostTitle.php:14-17 | a title that fits but has trailing trim bytes taking it past 255 bytes is refused as too long |
| ValueObjects.NewPostContent | blog-api/app/Domain/ValueObjects/PostContent.php:9-18 | NewPostTitle's contract, with the 10000-byte bound |
| ValueObjects.PostContentRoundTrip | blog-api/app/Domain/ValueObjects/PostContent.php:11-28 | accessors return the stored value; reconstruction from it is the identity |
| ValueObjects.PostContentBlankIsEmpty | blog-api/app/Domain/ValueObjects/PostContent.php:11-16 | a blank input, or "0" between trim bytes, is refused as empty at any length |
| ValueObjects.PostContentPaddingCounts | blog-api/app/Domain/ValueObjects/PostContent.php:14-17 | trailing trim bytes count towards the 10000-byte bound |
| ValueObjects.NewCommentContent | blog-api/app/Domain/ValueObjects/CommentContent.php:9-18 | NewPostTitle's contract, with the 1000-byte bound: 1000 bytes is accepted, 1001 is refused |
| ValueObjects.CommentContentRoundTrip | blog-api/app/Domain/ValueObjects/CommentContent.php:11-28 | accessors return the stored value; reconstruction from it is the identity |
| ValueObjects.CommentContentBlankIsEmpty | blog-api/app/Domain/ValueObjects/CommentContent.php:11-16 | a blank input, or "0" between trim bytes, is refused as empty at any length |
| ValueObjects.CommentContentPaddingCounts | blog-api/app/Domain/ValueObjects/CommentContent.php:14-17 | trailing trim bytes count towards the 1000-byte bound |
| Timestamps.Decimal | blog-api/app/DTOs/PostDTO.php:30 | the decimal digits of a number read back as that number |
| Timestamps.ZeroPadded | blog-api/app/DTOs/PostDTO.php:30 | zero padding keeps the value; a number below 10^width takes exactly `width` digits |
| Timestamps.TwoDigits | blog-api/app/DTOs/CommentDTO.php:26-27 | month, day, hour, minute and second print as exactly two digits that read back as the field |
| Timestamps.FormatYear | blog-api/app/DTOs/PostDTO.php:30 | the `Y` field: a year from 0 on prints as at least four digits that read back as the year, exactly four below 10000; an earlier year prints as '-' and digits that read back as its magnitude |
| Timestamps.Format | blog-api/app/DTOs/PostDTO.php:30-31 | `format('Y-m-d H:i:s')`: for a four-digit year the output has the 19-character `YYYY-MM-DD HH:MM:SS` shape; `ParseFormat` shows that it reads back |
| Timestamps.ParseFormat | blog-api/app/DTOs/PostDTO.php:30-31 | for a four-digit year, `format('Y-m-d H:i:s')` is 19 characters with separators at fixed positions, and parsing it gives the date-time back |
| Timestamps.FormatInjective | blog-api/app/DTOs/CommentDTO.php:26-27 | two date-times with four-digit years that format alike are equal |
| Entities.Comment.constructor | blog-api/app/Domain/Entities/Comment.php:17-31 | every argument is stored as given |
| Entities.Comment.UpdateContent | blog-api/app/Domain/Entities/Comment.php:65-69 | replaces the content and sets `updatedAt` to now; id, author, post id and `createdAt` are unchanged |
| Entities.Post.constructor | blog-api/app/Domain/Entities/Post.php:21-39 | every argument is stored as given; a missing comment collection becomes empty |
| Entities.Post.UpdateTitle | blog-api/app/Domain/Entities/Post.php:83-87 | replaces the title and sets `updatedAt` to now; every other field is unchanged |
| Entities.Post.UpdateContent | blog-api/app/Domain/Entities/Post.php:89-93 | replaces the content and sets `updatedAt` to now; every other field is unchanged |
| Entities.Post.UpdateImage | blog-api/app/Domain/Entities/Post.php:95-99 | sets the image path (null included) and `updatedAt`; every other field is unchanged |
| Entities.Post.AddComment | blog-api/app/Domain/Entities/Post.php:101-104 | appends the comment at the end, keeping earlier comments in order; every other field, `updatedAt` included, is unchanged; if every comment pointed at this post and the new one does too, they still all do |
| Entities.Comment.IsOwnedBy | blog-api/app/Domain/Entities/Comment.php:71-74 | `isOwnedBy`; `OwnershipIsById` states what it decides |
| Entities.Post.IsOwnedBy | blog-api/app/Domain/Entities/Post.php:106-109 | `isOwnedBy`; `OwnershipIsById` states what it decides |
| Entities.OwnershipIsById | blog-api/app/Domain/Entities/Post.php:106-109 | a post or comment is owned by a user iff the author's id equals the user's id; name and e-mail play no part; an author owns what they wrote |
| Commands.NewCreatePostCommand | blog-api/app/Commands/CreatePostCommand.php:15-25 | succeeds iff neither the title nor the content is refused; when the title is refused, its error is reported even if the content is also bad; on success the values are the trimmed inputs and `imagePath` and `authorId` pass through |
| Commands.CreatePostCommandError | blog-api/app/Commands/CreatePostCommand.php:21-22 | a failed command reports exactly the error of the first value object that failed |
| Commands.NewAddCommentCommand | blog-api/app/Commands/AddCommentCommand.php:13-21 | fails exactly when the comment content is refused, with that error; on success the content is the trimmed input, and `postId` and `authorId` (any integers) pass through |
| Repositories.PostRepository.Save | blog-api/app/Infrastructure/Repositories/Contracts/PostRepositoryInterface.php:12 | logs the call once; stores a new post under a fresh id and returns it with the given post's fields and no comments; `findById` of the new id then gives the returned post, and every other id finds what it found before |
| Repositories.CommentRepository.Save | blog-api/app/Infrastructure/Repositories/Contracts/CommentRepositoryInterface.php:12 | logs the call once; stores a new comment under a fresh id and returns it with the given comment's fields; `findById` of the new id then gives the returned comment, and every other id finds what it found before |
| UseCases.CreatePostUseCase.Execute | blog-api/app/UseCases/Post/CreatePostUseCase.php:19-34 | unknown author: fails with nothing written; otherwise exactly one save of a post with id 0, the command's title, content and image, the looked-up author, `createdAt` the first clock reading, `updatedAt` the second and no comments; the result is the row `save` returned |
| UseCases.AddCommentUseCase.Execute | blog-api/app/UseCases/Post/AddCommentUseCase.php:24-44 | a missing post fails first, even when the author is also unknown; an unknown author fails next; neither failure writes; otherwise exactly one save of a comment with id 0, the command's content and post id, the looked-up author, `createdAt` the first clock reading and `updatedAt` the second; the result is the row `save` returned; the post repository is never written |
| DTOs.CommentFromEntity | blog-api/app/DTOs/CommentDTO.php:16-33 | `new CommentDTO` and `fromEntity`, one function; `CommentProjection` states what it holds |
| DTOs.PostFromEntity | blog-api/app/DTOs/PostDTO.php:19-40 | `new PostDTO` and `fromEntity`, one function; `PostProjection` states what it holds |
| DTOs.CommentsFromEntitiesAppend | blog-api/app/DTOs/PostDTO.php:32-34 | projecting a comment collection with one more comment at the end gives the earlier projection followed by that comment's projection, so the order is kept |
| DTOs.ProjectAfterAddComment | blog-api/app/Domain/Entities/Post.php:101-104 | after `addComment`, the post's projection is the earlier one with the new comment's projection appended; every other field, `updated_at` included, is as before |
| DTOs.PostsFromCollectionAppend | blog-api/app/DTOs/PostDTO.php:42-47 | `fromCollection` of two collections joined is the two projections joined, so it keeps length and order post by post |
| DTOs.CommentProjection | blog-api/app/DTOs/CommentDTO.php:16-33 | id, content value and post id are copied; the author is `{id, name, email}`; for four-digit years both timestamps are 19 characters and parse back to the entity's timestamps |
| DTOs.PostProjection | blog-api/app/DTOs/PostDTO.php:19-40 | id, title value, content value and image (null included) are copied; the author is `{id, name, email}`; for four-digit years the timestamps are 19 characters and parse back; the comments project one by one, in order |

## Left out

- Getters: they are field reads of the classes and datatypes. Nothing is stated about them beyond the fields themselves.
- `fromEntity` and `new PostDTO`/`new CommentDTO` are the same function (`PostFromEntity`, `CommentFromEntity`), because in the source one only calls the other.
- The Eloquent repositories are replaced by in-memory repositories. Left out with them:
  - the database's id sequence, timestamps and eager loading;
  - `update`, `delete`, `findByPostId` and `findAllPaginated`.
- `Save` returns the saved entity's own timestamps, where the database would set its own.
- `ListPostsUseCase` and `PaginatedPostsDTO` are left out. Their content is computed by the framework's paginator.
- Controllers, routes, middleware and service wiring are left out:
  - request validation, including the character-based `max:` rules;
  - image upload to storage;
  - `Auth::id()` and JSON responses.
- The Vue frontend is left out. It is a network client.
- Exception messages are represented by the `ValidationError` and `UseCaseError` datatypes, not by their text.
- `User` is a record of id, name and e-mail. `User::findOrFail` is a lookup in a `users` map, and its not-found exception is `UserNotFound`.
- The clock readings are parameters. Nothing relates one reading to another: the model neither requires the second reading to be at or after the first, nor requires the two to fall in the same second.
- Entities.Post.constructor: the comment collection is a `seq` value, not a shared object. In PHP the constructor keeps the caller's `Collection` itself, `getComments()` hands out that same object, and `addComment` pushes into it in place. A push made through any holder of the collection therefore changes the post. The model does not capture this aliasing. `Post.AddComment` changes only its own post.
- Time zones and fractional seconds of PHP's `DateTime` are not modelled.
- Timestamps.Format: the formatter is defined for every year. The 19-character shape and the round trip through `Parse` are proved only for years 0 to 9999, since other years print with more characters or a sign.
- The entities do not require `updatedAt >= createdAt` or that a post's comments point at the post. The model states neither as an invariant. `AddComment` is only shown to preserve the second.
- Strings that are not validated (names, e-mail addresses, image paths) are Dafny `string`. The validated texts are byte sequences, because `strlen` and `trim` work on bytes.
