# Published By — a Dafny model

Published By is a WordPress plugin that records which user published a post.
This can differ from the post's author. The plugin shows that user in the
admin post listing.

This project models the plugin's class `c2c_PublishedBy`:

- **Recording.** When a post's status changes into `publish` and a user is
  logged in, the plugin stores that user's id in the post meta
  `c2c-published-by`.
- **Resolution.** `get_publisher_id` works out the publisher of a post with a
  chain where the first match wins:
  - the stored record;
  - a veto from the `c2c_published_by_skip_guessing` hook;
  - the `_edit_last` meta;
  - the author of the newest revision;
  - the post author.

  It returns 0 for a missing post, and for a post whose status is not in the
  list from `get_post_statuses`. Once resolution reaches the guessing steps,
  the post id goes into a process-wide list. `is_publisher_id_guessed`
  checks that list.
- **User deletion.** When a user is deleted without reassignment, the records
  naming that user are deleted. With reassignment, the code rewrites every
  record to the reassignment user, not only the deleted user's records (see
  Findings).
- **Listing.** `include_column` decides when the listing column appears.
  `filter_by_query` narrows the listing query to one publisher.
  `get_user_url` links a user's id to that user's profile screen.

Files:

- `wrappers.dfy`: the `Option` type.
- `decimal.dfy` (module `Decimal`): PHP's decimal text for an int, a reader
  for that text, and the proof that the reader inverts it. This is used for
  the user id in a URL and for the meta-value comparison.
- `published_by.dfy` (module `PublishedByPlugin`), which holds:
  - the data model;
  - the specification functions for resolution, transitions and user
    deletion, with lemmas about them;
  - the class `PublishedBy`. Its fields are the plugin's record store
    (`publishedBy`) and the request-wide guess list (`guessed`). Its methods
    update those fields in place, as the PHP code does.
- `listing.dfy` (module `Listing`): the admin-listing predicates and
  `get_user_url`.

How WordPress is represented:

- Posts and the `_edit_last` meta are read-only for the plugin. They are a
  `Content` value passed to the resolution.
- Meta values are ints, and 0 stands for every falsy value (no row, `''`,
  `'0'`).
- The two filters become parameters:
  - `c2c_published_by_post_status` becomes `statuses`, the list that
    `get_post_statuses` returns;
  - `c2c_published_by_skip_guessing` becomes a function `PostId -> bool`.
- These host values are also parameters:
  - the current user (`get_current_user_id()`, 0 when nobody is logged in);
  - `is_admin()`;
  - `$pagenow`;
  - `$_GET`;
  - the admin URL.

Points where the code's behaviour is easy to misread; the model follows the
code:

- A transition from `private` to `publish` writes a record, even though
  `private` already shows a publisher. The only status test in
  `transition_post_status` is that the status changes and the new status is
  exactly `publish` (published-by.php:357-364); a non-zero current user is
  also required (published-by.php:367).
- The doc comment of the guess list (published-by.php:83-91) describes it as
  the posts for which the previous call guessed. The list is never cleared,
  though: a post guessed earlier in a request still reads as guessed after it
  later resolves to a stored record. `GuessOutlivesRecord` shows this.
- The doc comment of `deleted_user` (published-by.php:155-158) says the
  deleted user's records are rewritten to the reassignment user. The update
  rewrites every record (see Findings).

## Model

| member | source | states |
|---|---|---|
| `PublishedByPlugin.GetPostStatuses` | published-by.php:200-202 | The definition is the statement: the status filter applied to the default list. `DefaultStatusesArePrivateAndPublish` states its values. |
| `PublishedByPlugin.DefaultStatusesArePrivateAndPublish` | published-by.php:200-202 | With no filter, the status list is `private`, `publish`. A filter that appends `trash` yields `private`, `publish`, `trash`. |
| `PublishedByPlugin.Publisher` | published-by.php:396-448 | The definition is the statement: the first match of the resolution chain. Its properties are stated by `IneligiblePostHasNoPublisher`, `StoredRecordWins`, `SkipGuessingVetoes` and `FallbackOrder`. |
| `PublishedByPlugin.GuessStep` | published-by.php:418-421 | The definition is the statement: the post is appended when resolution reaches the guessing steps and it is not yet listed. `GuessStepKeepsList`, `GuessedAfterKeepsList` and `GuessedAfterMembers` state its properties. |
| `PublishedByPlugin.IneligiblePostHasNoPublisher` | published-by.php:397-400 | A missing post, or one whose status is not listed, resolves to 0 and is not marked as guessed, even when it holds a record. |
| `PublishedByPlugin.StoredRecordWins` | published-by.php:406-409 | An eligible post with a truthy record resolves to that record, whatever the last editor, revisions or author are. The guess list is unchanged. |
| `PublishedByPlugin.SkipGuessingVetoes` | published-by.php:413-416 | With no record and a veto from the skip hook, the result is 0 and the post is not marked as guessed. |
| `PublishedByPlugin.FallbackOrder` | published-by.php:418-441 | Otherwise the post is marked as guessed. The result is the truthy last editor, else the newest revision's author, else the post author. |
| `PublishedByPlugin.GuessStepKeepsList` | published-by.php:419-421 | One call keeps the guess list free of duplicates and only appends to it. The only id it can add is the resolved post, and only when resolution reaches the guessing steps. |
| `PublishedByPlugin.GuessedAfterKeepsList` | published-by.php:83-91 | Over any run of resolutions the guess list stays free of duplicates. Its earlier contents stay as a prefix. |
| `PublishedByPlugin.GuessedAfterMembers` | published-by.php:384-386 | After any run, a post is reported as guessed iff it was guessed before, or the run resolved it through the guessing steps. |
| `PublishedByPlugin.PublishedBy.IsPublisherIdGuessed` | published-by.php:384-386 | The definition is the statement: membership in the guess list. `GetPublisherId` states how each call changes it; `GuessedAfterMembers` and `GuessOutlivesRecord` state what it reports after a run. |
| `PublishedByPlugin.PublishedBy.constructor` | published-by.php:91 | A request starts with the stored records and an empty guess list. |
| `PublishedByPlugin.PublishedBy.GetPublisherId` | published-by.php:396-448 | Returns the chain's result. The list is extended exactly when the guessing steps are reached and the post is not already in it. The guessed flag of every other post is unchanged, and the record store is untouched. |
| `PublishedByPlugin.AfterTransition` | published-by.php:355-370 | A transition writes the current user as the post's record iff the status changes, the new status is exactly `publish`, and the user is non-zero. Otherwise the store is unchanged. Other posts' records never change. |
| `PublishedByPlugin.PublishedBy.TransitionPostStatus` | published-by.php:355-370 | The store afterwards is the old store after that transition. It holds the current user exactly when the transition records one, and is unchanged otherwise. The guess list and its no-duplicates invariant are kept. |
| `PublishedByPlugin.LastPublishWins` | published-by.php:366-369 | In a sequence of transitions, a post's record is the user of the last transition that writes it. Later transitions that do not write it cannot change it. |
| `PublishedByPlugin.UnwrittenRecordUnchanged` | published-by.php:356-364 | A post that no transition writes keeps its record, or keeps having none. |
| `PublishedByPlugin.RepublishKeepsPublisher` | published-by.php:357-359 | A move from draft to publish by `u`, then a publish-to-publish save by anyone, leaves the record at `u`. |
| `PublishedByPlugin.OnlyPublishRecords` | published-by.php:361-364 | A move into `private`, `pending` or `draft` never records a publisher. |
| `PublishedByPlugin.RecordedPublisherResolves` | published-by.php:366-369 | After a recording transition on an eligible post, resolution returns that user and does not mark the post as guessed. |
| `PublishedByPlugin.RemoveUserRecords` | published-by.php:190-192 | Without reassignment, a record is deleted iff it names the deleted user. Every remaining record keeps its value. |
| `PublishedByPlugin.ReassignAllRecords` | published-by.php:177-184 | With reassignment, as written, every post that had a record still has one, and every record becomes the reassignment id. |
| `PublishedByPlugin.ReassignUserRecords` | published-by.php:155-158 | With reassignment, as documented, records naming the deleted user become the reassignment id. All other records are unchanged. |
| `PublishedByPlugin.ReassignAgreesOnDeletedUsersRecords` | published-by.php:170-184 | For a record that named the deleted user, the code and its documentation agree: the record becomes the reassignment id. |
| `PublishedByPlugin.ReassignOverwritesOtherPublishers` | published-by.php:178-184 | Records {1: 5, 2: 7}, delete user 5 with reassignment to 9. The code sets post 2 to 9, but the documented behaviour keeps it at 7. |
| `PublishedByPlugin.AfterUserDeleted` | published-by.php:166-193 | The definition is the statement: `ReassignAllRecords` for a truthy reassignment id, `RemoveUserRecords` otherwise. Those two functions' contracts, `DeletedPublisherIsGuessedAgain` and `ReassignedPublisherResolves` state its properties. |
| `PublishedByPlugin.PublishedBy.DeletedUser` | published-by.php:166-193 | With a truthy reassignment id, every record becomes that id, so in particular the deleted user's records do. Otherwise exactly the records naming the deleted user are deleted. The guess list and its no-duplicates invariant are kept. |
| `PublishedByPlugin.DeletedPublisherIsGuessedAgain` | published-by.php:190-192 | After deletion without reassignment, a post that named the deleted user goes back to the guessing steps, unless guessing is vetoed. |
| `PublishedByPlugin.ReassignedPublisherResolves` | published-by.php:167-184 | After deletion with reassignment, a post that named the deleted user resolves to the reassignment id, not as a guess. |
| `PublishedByPlugin.PublishThenReassign` | tests/test-published-by.php:266-278 | A draft published by `b` resolves to `b`. Once `b` is deleted with reassignment to `c`, it resolves to `c`. It is never guessed. |
| `PublishedByPlugin.GuessOutlivesRecord` | published-by.php:418-421 | A post guessed before being published resolves afterwards to its record, yet still reads as guessed. |
| `Listing.IncludeColumn` | published-by.php:211-213 | The definition is the statement: no `post_status` parameter, or `all`, or a status in the list. `IncludeColumnMatchesEligibility` and `HiddenColumnMeansNoPublisher` state what it means for the listed posts. |
| `Listing.IncludeColumnMatchesEligibility` | published-by.php:211-213 | On a listing of one status other than `all`, the column is shown iff the posts of that status are eligible for a publisher. |
| `Listing.HiddenColumnMeansNoPublisher` | published-by.php:400 | When the column is hidden, every post of the listed status resolves to 0. |
| `Listing.FilterByQuery` | published-by.php:524-539 | When the request is in the admin, the column is shown, the page is `edit.php` and `published-by` is non-empty, `meta_key` and `meta_value` name the record key and the requested user. Otherwise the query is unchanged. Other query variables never change. |
| `Listing.FilterSelectsPostsOfPublisher` | published-by.php:535-538 | Asking for user `u` admits exactly the posts whose record is `u`. |
| `Listing.GetUserUrl` | published-by.php:289-293 | A URL is returned iff the id is non-zero. It is exactly the admin URL, `user-edit.php?user_id=` and the id's decimal text, and reading the id back from it yields the same user. |
| `Listing.UserUrlExamples` | tests/test-published-by.php:296-304 | Users 2 and 3 get links ending in exactly `user_id=2` and `user_id=3`; user 0 gets none. |
| `Listing.UserUrlsAreDistinct` | published-by.php:291 | Distinct non-zero users get distinct URLs. |
| `Decimal.NatToDigits` | published-by.php:291 | PHP's text for a natural number is a non-empty string of decimal digits with no leading zero. |
| `Decimal.IntRoundTrip` | published-by.php:291 | Reading back the decimal text of any int gives that int. |

## Findings

| source | as written | input that shows it | evidently intended | confidence | as-written member | corrected member |
|---|---|---|---|---|---|---|
| published-by.php:178-184 | With reassignment, the meta update filters only on `meta_key = 'c2c-published-by'`. Every post's record becomes the reassignment id. | Records {post 1: user 5, post 2: user 7}; `deleted_user(5, 9)` | Only post 1 becomes 9, as the doc comment (lines 155-158) and the preceding select of the deleted user's posts (lines 171-175) say. Post 2 stays 7. | high; not executed | `PublishedByPlugin.ReassignOverwritesOtherPublishers` | `PublishedByPlugin.ReassignUserRecords` |

`PublishedBy.DeletedUser` and `AfterUserDeleted` follow the code as written,
through `ReassignAllRecords`, because this model records what the plugin
does. `ReassignUserRecords` is the documented behaviour, with its property
proved. Both agree on the deleted user's own records
(`ReassignAgreesOnDeletedUsersRecords`).

## Left out

- Presentation. `admin_css`, `add_admin_css`, `show_publisher`,
  `handle_column_data`, `add_post_column` and `filter_by_dropdown`, with its
  SQL and its `strnatcmp` ordering, only emit HTML and CSS.
- Plugin wiring. `version`, `init`, `do_init`, `register_meta` (including REST
  exposure) and `load_plugin_textdomain` only register hooks with WordPress.
- Cache invalidation. In `deleted_user`, the select of affected post ids and
  the loop of `wp_cache_delete` calls only invalidate caches, which the
  abstract store does not have.
- `$type` in `filter_by_query` (lines 531-533) is computed and never used.
- The filter mechanism. Each filter is a parameter. `GetPostStatuses`
  assumes the status filter returns a list, so the `(array)` cast of a scalar
  is not modelled.
- PHP loose comparison. `in_array` and `==` are modelled as exact equality,
  which matches for the non-numeric status strings and for int ids.
- Casts on stored values. The `(int)` casts of meta text are not modelled:
  stored values are ints, so non-numeric meta text is outside the model.
- Duplicate meta rows. A post holds at most one `c2c-published-by` value.
  WordPress can hold several rows per post, and reads the first.
- Host details:
  - `get_post_status` details, such as attachments inheriting their parent's
    status, are not modelled;
  - a revision lookup that fails is not modelled;
  - each post's revisions are given as their authors, newest first;
  - post id 0 is an ordinary key here. In WordPress, `get_post(0)` and
    `get_post_status(0)` fall back to the global current post, so
    `get_publisher_id(0)` resolves that post and adds its id to the guess
    list.
- `self_admin_url` is modelled as appending the path to the site's admin
  URL.
- Store failures. The code neither detects nor reports them, so the model
  has none.
