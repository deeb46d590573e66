# bootcamp-finder-api: list middleware, error handler and course/review controllers in Dafny

This project models the decision logic of a bootcamp directory REST API written
for Node.js/Express with a MongoDB document store:

- **The list middleware** (`advancedResults`). It copies the query string's
  parameters and deletes the control keys `select`, `sort`, `page` and `limit`.
  It serialises the rest to JSON and puts a `$` in front of every whole word
  `gt`, `gte`, `lt`, `lte` or `in`. It turns the comma lists of `select` and
  `sort` into space lists; the sort defaults to `-createdAt`. It reads `page`
  and `limit` with `parseInt(...) || default` (1 and 4). From those it derives
  the skip `(page - 1) * limit`, the `next` and `prev` pagination links, and
  the `{success, count, pagination, data}` envelope.
- **The error-handling middleware**. It runs three checks in order: cast error,
  duplicate key, validation error. A later match overwrites an earlier one. The
  result becomes the `{success: false, error}` response with its status.
- **The course and review controllers**. Each is a class holding the document
  table and the bootcamp table. Its methods look a document up (404), apply the
  ownership rule "owner is the requester, or the requester is an admin" (401),
  and then create, update or delete.

Modules:

| file | module | what it holds |
|---|---|---|
| options.dfy | `Options` | `Option` |
| text.dfy | `Text` | the word-character class, `split`/`join` on one character, sequence helpers |
| operator_rewrite.dfy | `OperatorRewrite` | the whole-word operator rewrite, a position-by-position reference semantics of the regular expression, and the marker removal |
| parse_int.dfy | `ParseInt` | `parseInt(s, 10)`, the parse-or-default idiom, `String(n)` |
| advanced_results.dfy | `AdvancedResults` | the query, its serialisation, page/limit reading, windows, and the `ListResults` method |
| error_handler.dfy | `ErrorHandler` | the error cascade as a total function |
| documents.dfy | `Documents` | entries, requesters, the ownership rule, create/update, replies |
| courses.dfy | `Courses` | `CourseStore` and its five handlers |
| reviews.dfy | `Reviews` | `ReviewStore` and its five handlers |

Notes on behaviour the model follows from the code:

- The operator rewrite is textual: a value that spells an operator
  (`location=in`) gets a `$` as well (`AdvancedResults.OperatorInValue`).
- `prev` is keyed on the skip being positive, not on `page > 1`. With
  `page=-1&limit=-2` the skip is 4 and a `prev` link to page -2 is produced
  (`AdvancedResults.PrevLinkWithoutEarlierPage`, with the link from
  `AdvancedResults.ListResults`).
- The error handler reads `keyValue` from its local copy. After a cast error
  has replaced the copy, a duplicate-key code makes the handler throw: outcome
  `Crashed`. This handler then sends nothing; the framework's default error
  handler answers 500. A validation error without `errors` throws too. All of
  this assumes the handler is installed, which `server.js` as shown does not do
  (see "## Left out").
- `addReview` builds its 404 message from `req.params.id`, which its route does
  not define, so the message always ends in `undefined`. `addReview` makes no
  ownership check and answers 201. `addCourse` answers 200.
- Listing the reviews of a bootcamp that has none is a 404. Listing its courses
  is an empty list.

## Model

| member | source | states |
|---|---|---|
| AdvancedResults.StripControlKeys | middleware/advancedResults.js:4-8 | the loop that deletes `select`, `sort`, `page`, `limit` one after the other yields the query without exactly those keys, in order |
| AdvancedResults.KeepUnlistedMembers | middleware/advancedResults.js:4-8 | a parameter is in the filter iff it was in the query and its key is not a control key (value unchanged) |
| AdvancedResults.KeepUnlistedAgain | middleware/advancedResults.js:8 | deleting one more key after a list of keys is deleting the longer list |
| AdvancedResults.KeepUnlistedConcat | middleware/advancedResults.js:8 | deleting keys distributes over concatenation of queries |
| AdvancedResults.KeepUnlistedNone | middleware/advancedResults.js:4 | deleting no key gives the copy of the query |
| AdvancedResults.Lookup | middleware/advancedResults.js:17-29 | `req.query[key]` is present iff some parameter has that key, and then it is the value of such a parameter |
| OperatorRewrite.RewriteIsRegexReplace | middleware/advancedResults.js:13 | the word-by-word rewrite equals the global replacement: one `$` before each position where the expression matches one of `gt`, `gte`, `lt`, `lte`, `in` as a whole word, every character kept |
| OperatorRewrite.MarkWordsIsRegex | middleware/advancedResults.js:13 | the same, for any list of alternatives made of word characters |
| OperatorRewrite.UnrewriteRewrite | middleware/advancedResults.js:13 | removing the inserted `$` markers gives back the serialised filter |
| OperatorRewrite.UnmarkMarkWords | middleware/advancedResults.js:13 | the same round trip for any list of word alternatives |
| OperatorRewrite.RewriteUnchangedIff | middleware/advancedResults.js:13 | the rewrite leaves a text unchanged iff no operator occurs in it as a whole word |
| OperatorRewrite.MarkWordsUnchangedIff | middleware/advancedResults.js:13 | the same for any list of word alternatives |
| OperatorRewrite.MarkMatchesLength | middleware/advancedResults.js:13 | the reference replacement is as long as the text plus the number of matches, and it has no extra character exactly when nothing matched |
| OperatorRewrite.Rewrite | middleware/advancedResults.js:13 | the rewritten filter is longer than the serialised one by exactly the number of whole-word operator matches |
| OperatorRewrite.MarkWordsConcat | middleware/advancedResults.js:13 | two texts that meet at a word boundary are rewritten independently |
| AdvancedResults.Serialize | middleware/advancedResults.js:11 | `JSON.stringify` of the query copy is a brace-delimited object, `{}` exactly when no parameter is left |
| AdvancedResults.OperatorInKey | middleware/advancedResults.js:11-13 | `averageCost[lte]=10000&page=2` gives the filter `{"averageCost":{"$lte":"10000"}}` |
| AdvancedResults.OperatorInValue | middleware/advancedResults.js:11-13 | `location=in` gives `{"location":"$in"}`: values are rewritten too |
| AdvancedResults.SpaceList | middleware/advancedResults.js:18 | `split(',').join(' ')` replaces every comma by a space and keeps every other character |
| Text.JoinSplit | middleware/advancedResults.js:18 | joining the pieces of a split with another separator replaces the separator character |
| Text.SplitJoin | middleware/advancedResults.js:18 | splitting a join gives back the pieces when no piece holds the separator |
| AdvancedResults.SpaceListTokens | middleware/advancedResults.js:17-26 | when the value holds no space, the space list holds the same tokens in the same order as the comma list |
| ParseInt.Parse | middleware/advancedResults.js:28-29 | `parseInt(s, 10)` is `NaN` exactly when no digit follows the leading white space and the optional sign; a negative result needs a leading minus sign |
| ParseInt.TrimStart | middleware/advancedResults.js:28-29 | `parseInt` skips exactly the leading white space |
| ParseInt.ParseOr | middleware/advancedResults.js:28-29 | parse-or-default with default `d` is `d` when the text is not a number or is zero, and otherwise the parsed number; never zero when `d` is not |
| ParseInt.ParseUnsigned | middleware/advancedResults.js:28-29 | leading white space, then digits, then anything that is not a digit reads as the digits' value |
| ParseInt.ParsePositive | middleware/advancedResults.js:28-29 | the same after a plus sign gives the digits' value |
| ParseInt.ParseNegative | middleware/advancedResults.js:28-29 | the same after a minus sign gives the negated value |
| ParseInt.ParseShow | middleware/advancedResults.js:28-29 | reading back `String(n)`, with white space before and a non-digit after, gives `n` |
| ParseInt.ParseOrShow | middleware/advancedResults.js:28-29 | a non-zero number written out is what parse-or-default returns, whatever `d` |
| ParseInt.NotANumber | middleware/advancedResults.js:28-29 | a text whose first non-blank character starts no number is `NaN` |
| AdvancedResults.PageOf | middleware/advancedResults.js:28 | the page is never zero and is 1 when `page` is absent |
| AdvancedResults.LimitOf | middleware/advancedResults.js:29 | the limit is never zero and is 4 when `limit` is absent |
| AdvancedResults.PageAndLimitRead | middleware/advancedResults.js:28-29 | a non-zero page and limit written in the query are read back as those numbers |
| AdvancedResults.EndIsStartPlusLimit | middleware/advancedResults.js:30-31 | `endIndex = startIndex + limit` |
| AdvancedResults.Window | middleware/advancedResults.js:34 | `.skip(start).limit(n)` returns at most `n` records, the ones at `start`, `start+1`, … of the matching records |
| AdvancedResults.WindowsAdjoin | middleware/advancedResults.js:34 | consecutive windows cover the records without gap or overlap |
| AdvancedResults.ListResults | middleware/advancedResults.js:4-67 | rejected iff `select`/`sort` is nested or the skip is negative; otherwise the filter, fields, sort, skip and limit are as stated above, `success` holds, `count` is the number of records in `data`, the data is the window, `next` iff `endIndex < total` (the whole collection) with page+1, `prev` iff `startIndex > 0` with page-1 |
| AdvancedResults.PrevLinkWithoutEarlierPage | middleware/advancedResults.js:28-31 | with `page=-1&limit=-2` the skip is 4 although the page is before the first, so the `prev` condition `startIndex > 0` holds and its page is -2 |
| ErrorHandler.HandleError | middleware/error.js:4-37 | cast error: 404 naming the value; duplicate key: 400 naming the first key, or a throw when the copy has no `keyValue` (after a cast error, or when the error never had one); validation error: 400 with the messages joined by commas, overriding the duplicate-key message; anything else: its own status (500 when missing or zero) and message; every response has `success` false and a non-empty message |
| ErrorHandler.ForwardsErrorResponse | middleware/error.js:34-37 | a controller's `ErrorResponse` is answered with its status and message |
| ErrorHandler.CastThenDuplicateCrashes | middleware/error.js:14-25 | a cast error with the duplicate-key code throws even when the original error has `keyValue` |
| Documents.MayModify | controllers/courses.js:58-64 | the ownership rule of the guards: an admin may change any entry, anyone else only the entries they own |
| Documents.Created | controllers/courses.js:46-48 | a created entry has the route's bootcamp, the requester as user, and the other body fields unchanged |
| Documents.Updated | controllers/courses.js:94-97 | every body key overwrites the stored value, `bootcamp` and `user` included; other fields are kept |
| Documents.UpdatedIdempotent | controllers/courses.js:94-97 | applying the same update twice is applying it once |
| Documents.UpdateTransfersOwnership | controllers/courses.js:85-97 | an update whose body names another user takes the entry away from a non-admin requester |
| Documents.OfBootcamp | controllers/courses.js:12 | `find({bootcamp})` returns exactly the entries of that bootcamp |
| Courses.CourseStore.GetCourses | controllers/courses.js:10-22 | with a bootcamp id: 200 with exactly that bootcamp's courses and their count; without: 200 with the list envelope unchanged |
| Courses.CourseStore.GetCourse | controllers/courses.js:27-39 | 200 with the course, or 404 `No course with id: <id>` |
| Courses.CourseStore.AddCourse | controllers/courses.js:44-73 | 404 for a missing bootcamp first; 401 unless the requester owns the bootcamp or is an admin; otherwise 200 and exactly the new course is added; the table is unchanged on failure |
| Courses.CourseStore.UpdateCourse | controllers/courses.js:78-103 | 404 before any ownership check; 401 leaves the table unchanged; otherwise 200 with the updated course, and only that id changes |
| Courses.CourseStore.DeleteCourse | controllers/courses.js:108-130 | 404 before any ownership check; 401 leaves the table unchanged; otherwise 200 with no data and exactly that id is removed |
| Reviews.ReviewStore.GetReviews | controllers/reviews.js:10-30 | with a bootcamp id: 404 when no review has it, else 200 with exactly those reviews and their count; without: the list envelope |
| Reviews.ReviewStore.GetReview | controllers/reviews.js:35-51 | 200 with the review, or 404 `No review with the id: <id>` |
| Reviews.ReviewStore.AddReview | controllers/reviews.js:56-73 | 404 `No bootcamp with the id:undefined` for a missing bootcamp; otherwise, with no ownership check, 201 and exactly the new review (route bootcamp, requester as user) is added |
| Reviews.ReviewStore.UpdateReview | controllers/reviews.js:78-100 | 404 before any ownership check; 401 `Not authorized to update review` leaves the table unchanged; otherwise 200 and only that id changes |
| Reviews.ReviewStore.DeleteReview | controllers/reviews.js:105-124 | 404 before any ownership check; 401 leaves the table unchanged; otherwise 200 with no data and exactly that id is removed |

## Left out

- The document store's query execution (`find`, `select`, `sort`, `populate`, `countDocuments`) is not modelled. `ListResults` takes the whole collection and the already filtered and sorted matching records as inputs, and returns the query plan it would hand over. Field projection and sort order are not applied to the records.
- `ListResults`: a negative skip is modelled as a rejection, on the assumption that the store refuses it. A negative limit returns `|limit|` records, as the store treats it. Both are store behaviour, not code of this repository.
- `JSON.stringify` escaping and `JSON.parse` are not modelled. Serialisation writes keys and values between quotes as they are, and the parse that follows the rewrite is left out with its failure path.
- `AdvancedResults.Serialize` keeps the query string's order of keys. JavaScript objects list integer-like keys first, in ascending order, and `JSON.stringify` keeps that order, so a query such as `name=x&2020=y` serialises with `2020` first in the source. The same holds for the keys of a nested value.
- Query parameters that are arrays (a key repeated in the query string) are not modelled. Nesting goes one level deep (`key[op]=value`).
- `parseInt` and `(page - 1) * limit` use unbounded integers. Floating-point rounding of very large numbers is not modelled.
- Schema validation on create and update (a `ValidationError` from the store), `CastError` for malformed ids, and `populate` are left out of the controllers. `HandleError` models how the error handler would answer these errors once installed.
- `server.js` as shown does not install the error handler: it mounts only the body parser, the logger and the bootcamps router, and no file requires `middleware/error.js`. A `Reply.Failure` and every `HandleError` outcome assume the handler is installed, as the controllers' `next(new ErrorResponse(...))` calls expect. As shipped, the framework's default handler answers instead: it keeps a 4xx/5xx status but sends an HTML page, and it answers 500 where `HandleError` gives 400 for a `ValidationError`.
- The order of listed courses and reviews is not modelled; the tables are maps keyed by id.
- An update body that carries `_id` is not modelled; an entry keeps its id.
- `addCourse` stores `req.user` (an object) as the user. The model stores the requester's id, which is what the store keeps for a reference.
- The id the store gives a new document is an input of `AddCourse` and `AddReview`.
- The routes that mount the controllers are not modelled. Authentication and the list middleware enter as inputs (`Requester`, the `Option` envelope of `GetCourses`).
- `utils/errorResponse.js` and the document schemas are not part of this model.
- Console logging in both middlewares is left out.
- `AdvancedResults.KeepUnlisted`: its own contract states only the length bound. Membership is stated by `KeepUnlistedMembers` and the exact result by `StripControlKeys`.
