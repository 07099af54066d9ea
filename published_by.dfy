/**
 * The publisher record kept by the Published By plugin for WordPress: which
 * user moved a post into the 'publish' status, and how the plugin works that
 * user out later when no record exists (the last editor, the author of the
 * newest revision, the post author), noting every post whose publisher it had
 * to guess.
 *
 * WordPress's own stores are abstracted as maps. Meta values are ints with 0
 * standing for every falsy value (no row, '' or '0'), as PHP treats them.
 */
module PublishedByPlugin {

  import opened Wrappers

  type PostId = int
  type UserId = int

  /** The meta key under which the publishing user's id is stored. */
  const MetaKey: string := "c2c-published-by"

  /** The one status whose entry records a publisher. */
  const PublishStatus: string := "publish"

  /** The statuses that show a publisher before any filter is applied. */
  const DefaultPostStatuses: seq<string> := ["private", "publish"]

  /**
   * A post as WordPress reports it: its status, its author, and the authors
   * of its revisions, newest first (the order wp_get_post_revisions returns).
   */
  datatype Post = Post(status: string, author: UserId, revisions: seq<UserId>)

  /**
   * What WordPress itself records about posts and the plugin only reads: the
   * posts, and the '_edit_last' meta (the last user to edit each post).
   */
  datatype Content = Content(posts: map<PostId, Post>, editLast: map<PostId, UserId>)

  /** get_post_meta(..., true): the stored value, or a falsy 0 when there is none. */
  function MetaValue(meta: map<PostId, int>, postId: PostId): int {
    if postId in meta then meta[postId] else 0
  }

  /**
   * The status list after the 'c2c_published_by_post_status' filter has run
   * over the default list.
   */
  function GetPostStatuses(statusFilter: seq<string> -> seq<string>): seq<string> {
    statusFilter(DefaultPostStatuses)
  }

  lemma DefaultStatusesArePrivateAndPublish()
    ensures GetPostStatuses(s => s) == ["private", "publish"]
    ensures GetPostStatuses(s => s + ["trash"]) == ["private", "publish", "trash"]
    ensures PublishStatus in GetPostStatuses(s => s)
  {
  }

  // ---------------------------------------------------------------------
  // Publisher resolution (get_publisher_id)
  // ---------------------------------------------------------------------

  /** The post exists and its status is one that shows a publisher. */
  predicate Eligible(content: Content, statuses: seq<string>, postId: PostId) {
    postId in content.posts && content.posts[postId].status in statuses
  }

  /**
   * The resolution reaches the guessing steps: the post is eligible, it has
   * no truthy record, and the skip-guessing hook does not veto.
   */
  predicate Guesses(content: Content, publishedBy: map<PostId, int>, statuses: seq<string>,
                    skipGuessing: PostId -> bool, postId: PostId)
  {
    Eligible(content, statuses, postId) && MetaValue(publishedBy, postId) == 0 && !skipGuessing(postId)
  }

  /** The id get_publisher_id returns; the chain's first match wins. */
  function Publisher(content: Content, publishedBy: map<PostId, int>, statuses: seq<string>,
                     skipGuessing: PostId -> bool, postId: PostId): int
  {
    if !Eligible(content, statuses, postId) then 0
    else if MetaValue(publishedBy, postId) != 0 then MetaValue(publishedBy, postId)
    else if skipGuessing(postId) then 0
    else if MetaValue(content.editLast, postId) != 0 then MetaValue(content.editLast, postId)
    else if |content.posts[postId].revisions| > 0 then content.posts[postId].revisions[0]
    else content.posts[postId].author
  }

  predicate NoDuplicates(s: seq<PostId>) {
    forall i, j :: 0 <= i < j < |s| ==> s[i] != s[j]
  }

  /** Appends a post id to the guess list unless it is already there. */
  function MarkGuessed(guessed: seq<PostId>, postId: PostId): seq<PostId> {
    if postId in guessed then guessed else guessed + [postId]
  }

  /** The guess list after one get_publisher_id call. */
  function GuessStep(content: Content, publishedBy: map<PostId, int>, statuses: seq<string>,
                     skipGuessing: PostId -> bool, guessed: seq<PostId>, postId: PostId): seq<PostId>
  {
    if Guesses(content, publishedBy, statuses, skipGuessing, postId) then MarkGuessed(guessed, postId)
    else guessed
  }

  /** The guess list after get_publisher_id has run for each of `postIds` in turn. */
  function GuessedAfter(content: Content, publishedBy: map<PostId, int>, statuses: seq<string>,
                        skipGuessing: PostId -> bool, guessed: seq<PostId>, postIds: seq<PostId>): seq<PostId>
    decreases |postIds|
  {
    if postIds == [] then guessed
    else GuessedAfter(content, publishedBy, statuses, skipGuessing,
                      GuessStep(content, publishedBy, statuses, skipGuessing, guessed, postIds[0]), postIds[1..])
  }

  lemma IneligiblePostHasNoPublisher(content: Content, publishedBy: map<PostId, int>, statuses: seq<string>,
                                     skipGuessing: PostId -> bool, guessed: seq<PostId>, postId: PostId)
    requires !Eligible(content, statuses, postId)
    ensures Publisher(content, publishedBy, statuses, skipGuessing, postId) == 0
    ensures GuessStep(content, publishedBy, statuses, skipGuessing, guessed, postId) == guessed
  {
  }

  lemma StoredRecordWins(content: Content, publishedBy: map<PostId, int>, statuses: seq<string>,
                         skipGuessing: PostId -> bool, guessed: seq<PostId>, postId: PostId)
    requires Eligible(content, statuses, postId)
    requires postId in publishedBy && publishedBy[postId] != 0
    ensures Publisher(content, publishedBy, statuses, skipGuessing, postId) == publishedBy[postId]
    ensures GuessStep(content, publishedBy, statuses, skipGuessing, guessed, postId) == guessed
  {
  }

  lemma SkipGuessingVetoes(content: Content, publishedBy: map<PostId, int>, statuses: seq<string>,
                           skipGuessing: PostId -> bool, guessed: seq<PostId>, postId: PostId)
    requires MetaValue(publishedBy, postId) == 0 && skipGuessing(postId)
    ensures Publisher(content, publishedBy, statuses, skipGuessing, postId) == 0
    ensures GuessStep(content, publishedBy, statuses, skipGuessing, guessed, postId) == guessed
  {
  }

  lemma FallbackOrder(content: Content, publishedBy: map<PostId, int>, statuses: seq<string>,
                      skipGuessing: PostId -> bool, guessed: seq<PostId>, postId: PostId)
    requires Eligible(content, statuses, postId)
    requires MetaValue(publishedBy, postId) == 0 && !skipGuessing(postId)
    ensures postId in GuessStep(content, publishedBy, statuses, skipGuessing, guessed, postId)
    ensures var r := Publisher(content, publishedBy, statuses, skipGuessing, postId);
            var post := content.posts[postId];
            && (postId in content.editLast && content.editLast[postId] != 0 ==> r == content.editLast[postId])
            && (MetaValue(content.editLast, postId) == 0 && post.revisions != [] ==> r == post.revisions[0])
            && (MetaValue(content.editLast, postId) == 0 && post.revisions == [] ==> r == post.author)
  {
  }

  /** One call keeps the guess list free of duplicates, only appends, and appends only `postId`. */
  lemma GuessStepKeepsList(content: Content, publishedBy: map<PostId, int>, statuses: seq<string>,
                           skipGuessing: PostId -> bool, guessed: seq<PostId>, postId: PostId)
    requires NoDuplicates(guessed)
    ensures var g := GuessStep(content, publishedBy, statuses, skipGuessing, guessed, postId);
            && NoDuplicates(g)
            && guessed <= g
            && forall p :: p in g <==> p in guessed || (p == postId && Guesses(content, publishedBy, statuses, skipGuessing, p))
  {
  }

  /** Over any run of calls the guess list stays free of duplicates and only grows. */
  lemma {:induction false} GuessedAfterKeepsList(content: Content, publishedBy: map<PostId, int>, statuses: seq<string>,
                                                 skipGuessing: PostId -> bool, guessed: seq<PostId>, postIds: seq<PostId>)
    requires NoDuplicates(guessed)
    ensures NoDuplicates(GuessedAfter(content, publishedBy, statuses, skipGuessing, guessed, postIds))
    ensures guessed <= GuessedAfter(content, publishedBy, statuses, skipGuessing, guessed, postIds)
    decreases |postIds|
  {
    if postIds != [] {
      var g := GuessStep(content, publishedBy, statuses, skipGuessing, guessed, postIds[0]);
      GuessStepKeepsList(content, publishedBy, statuses, skipGuessing, guessed, postIds[0]);
      GuessedAfterKeepsList(content, publishedBy, statuses, skipGuessing, g, postIds[1..]);
    }
  }

  /**
   * After a run of calls a post is marked as guessed exactly when it was
   * marked before or the run resolved it through the guessing steps.
   */
  lemma {:induction false} GuessedAfterMembers(content: Content, publishedBy: map<PostId, int>, statuses: seq<string>,
                                               skipGuessing: PostId -> bool, guessed: seq<PostId>, postIds: seq<PostId>, p: PostId)
    ensures p in GuessedAfter(content, publishedBy, statuses, skipGuessing, guessed, postIds)
            <==> p in guessed || (p in postIds && Guesses(content, publishedBy, statuses, skipGuessing, p))
    decreases |postIds|
  {
    if postIds != [] {
      var g := GuessStep(content, publishedBy, statuses, skipGuessing, guessed, postIds[0]);
      GuessedAfterMembers(content, publishedBy, statuses, skipGuessing, g, postIds[1..], p);
      assert p in postIds <==> p == postIds[0] || p in postIds[1..];
    }
  }

  // ---------------------------------------------------------------------
  // Recording the publisher (transition_post_status)
  // ---------------------------------------------------------------------

  /** A status change of one post, with the user logged in at the time (0 for none). */
  datatype Transition = Transition(newStatus: string, oldStatus: string, postId: PostId, currentUser: UserId)

  /** The transition writes a record: the status changes, into 'publish', by a known user. */
  predicate RecordsPublisher(t: Transition) {
    t.newStatus != t.oldStatus && t.newStatus == PublishStatus && t.currentUser != 0
  }

  /** The record store after one transition. */
  function AfterTransition(publishedBy: map<PostId, int>, t: Transition): (r: map<PostId, int>)
    ensures RecordsPublisher(t) ==> t.postId in r && r[t.postId] == t.currentUser
    ensures !RecordsPublisher(t) ==> r == publishedBy
    ensures forall p :: p != t.postId ==> (p in r <==> p in publishedBy) && (p in r ==> r[p] == publishedBy[p])
  {
    if t.newStatus == t.oldStatus then publishedBy
    else if t.newStatus != PublishStatus then publishedBy
    else if t.currentUser != 0 then publishedBy[t.postId := t.currentUser]
    else publishedBy
  }

  /** The record store after a sequence of transitions, oldest first. */
  function AfterTransitions(publishedBy: map<PostId, int>, ts: seq<Transition>): map<PostId, int>
    decreases |ts|
  {
    if ts == [] then publishedBy
    else AfterTransition(AfterTransitions(publishedBy, ts[..|ts| - 1]), ts[|ts| - 1])
  }

  /** The last transition that writes a post's record decides it, whatever comes after. */
  lemma {:induction false} LastPublishWins(publishedBy: map<PostId, int>, ts: seq<Transition>, i: nat)
    requires i < |ts| && RecordsPublisher(ts[i])
    requires forall j :: i < j < |ts| && ts[j].postId == ts[i].postId ==> !RecordsPublisher(ts[j])
    ensures ts[i].postId in AfterTransitions(publishedBy, ts)
    ensures AfterTransitions(publishedBy, ts)[ts[i].postId] == ts[i].currentUser
    decreases |ts|
  {
    if i < |ts| - 1 {
      var prefix := ts[..|ts| - 1];
      assert prefix[i] == ts[i];
      LastPublishWins(publishedBy, prefix, i);
    }
  }

  /** A post that no transition writes keeps its record (or its absence). */
  lemma {:induction false} UnwrittenRecordUnchanged(publishedBy: map<PostId, int>, ts: seq<Transition>, p: PostId)
    requires forall j :: 0 <= j < |ts| && ts[j].postId == p ==> !RecordsPublisher(ts[j])
    ensures p in AfterTransitions(publishedBy, ts) <==> p in publishedBy
    ensures p in publishedBy ==> AfterTransitions(publishedBy, ts)[p] == publishedBy[p]
    decreases |ts|
  {
    if ts != [] {
      var prefix := ts[..|ts| - 1];
      assert forall j :: 0 <= j < |prefix| ==> prefix[j] == ts[j];
      UnwrittenRecordUnchanged(publishedBy, prefix, p);
    }
  }

  /**
   * Publishing a draft records the user; saving the published post again,
   * even by someone else, does not change the record.
   */
  lemma RepublishKeepsPublisher(publishedBy: map<PostId, int>, postId: PostId, u: UserId, v: UserId)
    requires u != 0
    ensures var ts := [Transition("publish", "draft", postId, u), Transition("publish", "publish", postId, v)];
            postId in AfterTransitions(publishedBy, ts) && AfterTransitions(publishedBy, ts)[postId] == u
  {
    var ts := [Transition("publish", "draft", postId, u), Transition("publish", "publish", postId, v)];
    LastPublishWins(publishedBy, ts, 0);
  }

  /** Entering 'private', 'pending' or a draft save never records a publisher. */
  lemma OnlyPublishRecords(t: Transition)
    requires t.newStatus in ["private", "pending", "draft"]
    ensures !RecordsPublisher(t)
  {
  }

  /**
   * Once a transition has recorded a publisher for an eligible post, the
   * resolution returns that user and does not guess.
   */
  lemma RecordedPublisherResolves(content: Content, publishedBy: map<PostId, int>, statuses: seq<string>,
                                  skipGuessing: PostId -> bool, guessed: seq<PostId>, t: Transition)
    requires RecordsPublisher(t) && Eligible(content, statuses, t.postId)
    ensures var after := AfterTransition(publishedBy, t);
            && Publisher(content, after, statuses, skipGuessing, t.postId) == t.currentUser
            && GuessStep(content, after, statuses, skipGuessing, guessed, t.postId) == guessed
  {
  }

  // ---------------------------------------------------------------------
  // Reconciling records when a user is deleted (deleted_user)
  // ---------------------------------------------------------------------

  /** deleted_user takes the reassignment branch for a truthy reassign id. */
  predicate Reassigns(reassign: Option<UserId>) {
    reassign.Some? && reassign.value != 0
  }

  /** Without reassignment: the records naming the deleted user are deleted. */
  function RemoveUserRecords(publishedBy: map<PostId, int>, userId: UserId): (r: map<PostId, int>)
    ensures forall p :: p in r <==> p in publishedBy && publishedBy[p] != userId
    ensures forall p :: p in r ==> r[p] == publishedBy[p]
  {
    map p | p in publishedBy && publishedBy[p] != userId :: publishedBy[p]
  }

  /**
   * With reassignment, as the code is written: the update is filtered on the
   * meta key alone, so every record on every post becomes `reassign`.
   */
  function ReassignAllRecords(publishedBy: map<PostId, int>, reassign: UserId): (r: map<PostId, int>)
    ensures r.Keys == publishedBy.Keys
    ensures forall p :: p in r ==> r[p] == reassign
  {
    map p | p in publishedBy :: reassign
  }

  /**
   * With reassignment, as documented: the records naming the deleted user
   * now name `reassign`, and every other record is left as it was.
   */
  function ReassignUserRecords(publishedBy: map<PostId, int>, userId: UserId, reassign: UserId): (r: map<PostId, int>)
    ensures r.Keys == publishedBy.Keys
    ensures forall p :: p in r && publishedBy[p] == userId ==> r[p] == reassign
    ensures forall p :: p in r && publishedBy[p] != userId ==> r[p] == publishedBy[p]
  {
    map p | p in publishedBy :: if publishedBy[p] == userId then reassign else publishedBy[p]
  }

  /** The record store after deleted_user, following the code as written. */
  function AfterUserDeleted(publishedBy: map<PostId, int>, userId: UserId, reassign: Option<UserId>): map<PostId, int> {
    if Reassigns(reassign) then ReassignAllRecords(publishedBy, reassign.value)
    else RemoveUserRecords(publishedBy, userId)
  }

  /**
   * The code and its documentation agree on the records that named the
   * deleted user; they differ on every other record.
   */
  lemma ReassignAgreesOnDeletedUsersRecords(publishedBy: map<PostId, int>, userId: UserId, reassign: UserId, p: PostId)
    requires p in publishedBy && publishedBy[p] == userId
    ensures ReassignAllRecords(publishedBy, reassign)[p] == ReassignUserRecords(publishedBy, userId, reassign)[p] == reassign
  {
  }

  /**
   * Deleting user 5 with reassignment to 9 also hands user 7's post to 9,
   * where the documented behaviour keeps it with 7.
   */
  lemma ReassignOverwritesOtherPublishers()
    ensures var m := map[1 := 5, 2 := 7];
            && ReassignAllRecords(m, 9)[2] == 9
            && ReassignUserRecords(m, 5, 9)[2] == 7
            && AfterUserDeleted(m, 5, Some(9)) != ReassignUserRecords(m, 5, 9)
  {
    var m := map[1 := 5, 2 := 7];
    assert AfterUserDeleted(m, 5, Some(9))[2] == 9;
  }

  /**
   * A post whose recorded publisher is deleted without reassignment goes
   * back to being guessed, unless guessing is vetoed.
   */
  lemma DeletedPublisherIsGuessedAgain(content: Content, publishedBy: map<PostId, int>, statuses: seq<string>,
                                       skipGuessing: PostId -> bool, userId: UserId, reassign: Option<UserId>, postId: PostId)
    requires !Reassigns(reassign)
    requires Eligible(content, statuses, postId) && !skipGuessing(postId)
    requires postId in publishedBy && publishedBy[postId] == userId
    ensures Guesses(content, AfterUserDeleted(publishedBy, userId, reassign), statuses, skipGuessing, postId)
  {
  }

  /** A post whose recorded publisher is deleted with reassignment resolves to the new user. */
  lemma ReassignedPublisherResolves(content: Content, publishedBy: map<PostId, int>, statuses: seq<string>,
                                    skipGuessing: PostId -> bool, userId: UserId, reassign: Option<UserId>, postId: PostId)
    requires Reassigns(reassign)
    requires Eligible(content, statuses, postId)
    requires postId in publishedBy && publishedBy[postId] == userId
    ensures Publisher(content, AfterUserDeleted(publishedBy, userId, reassign), statuses, skipGuessing, postId) == reassign.value
    ensures !Guesses(content, AfterUserDeleted(publishedBy, userId, reassign), statuses, skipGuessing, postId)
  {
  }

  // ---------------------------------------------------------------------
  // The plugin's state within one request
  // ---------------------------------------------------------------------

  /**
   * The record store the plugin writes (its 'c2c-published-by' post meta)
   * and the process-wide list of posts whose publisher was guessed.
   */
  class PublishedBy {
    var publishedBy: map<PostId, int>
    var guessed: seq<PostId>

    ghost predicate Valid()
      reads this
    {
      NoDuplicates(guessed)
    }

    /** The start of a request: the stored records, and nothing guessed yet. */
    constructor (publishedBy: map<PostId, int>)
      ensures Valid()
      ensures this.publishedBy == publishedBy && guessed == []
    {
      this.publishedBy := publishedBy;
      guessed := [];
    }

    /** is_publisher_id_guessed: whether the post's publisher was guessed earlier in this request. */
    function IsPublisherIdGuessed(postId: PostId): bool
      reads this
    {
      postId in guessed
    }

    /**
     * get_publisher_id: the first of the stored record, a veto, the last
     * editor, the newest revision's author and the post author; the guessing
     * steps note the post as guessed before trying anything.
     */
    method GetPublisherId(content: Content, statuses: seq<string>, skipGuessing: PostId -> bool, postId: PostId)
      returns (publisherId: int)
      requires Valid()
      modifies this`guessed
      ensures Valid()
      ensures publisherId == Publisher(content, publishedBy, statuses, skipGuessing, postId)
      ensures guessed == GuessStep(content, publishedBy, statuses, skipGuessing, old(guessed), postId)
      ensures IsPublisherIdGuessed(postId)
              <==> old(IsPublisherIdGuessed(postId)) || Guesses(content, publishedBy, statuses, skipGuessing, postId)
      ensures forall q :: q != postId ==> IsPublisherIdGuessed(q) == old(IsPublisherIdGuessed(q))
    {
      publisherId := 0;
      if postId in content.posts && content.posts[postId].status in statuses {
        var post := content.posts[postId];
        label chain: {
          publisherId := MetaValue(publishedBy, postId);
          if publisherId != 0 {
            break chain;
          }
          if skipGuessing(postId) {
            break chain;
          }
          if !IsPublisherIdGuessed(postId) {
            guessed := guessed + [postId];
          }
          publisherId := MetaValue(content.editLast, postId);
          if publisherId != 0 {
            break chain;
          }
          if |post.revisions| > 0 {
            publisherId := post.revisions[0];
            break chain;
          }
          publisherId := post.author;
        }
      }
    }

    /** transition_post_status: records the current user when a post enters 'publish'. */
    method TransitionPostStatus(newStatus: string, oldStatus: string, postId: PostId, currentUser: UserId)
      requires Valid()
      modifies this`publishedBy
      ensures Valid()
      ensures publishedBy == AfterTransition(old(publishedBy), Transition(newStatus, oldStatus, postId, currentUser))
      ensures RecordsPublisher(Transition(newStatus, oldStatus, postId, currentUser))
              ==> postId in publishedBy && publishedBy[postId] == currentUser
      ensures !RecordsPublisher(Transition(newStatus, oldStatus, postId, currentUser)) ==> publishedBy == old(publishedBy)
    {
      if newStatus == oldStatus {
        return;
      }
      if PublishStatus != newStatus {
        return;
      }
      if currentUser != 0 {
        publishedBy := publishedBy[postId := currentUser];
      }
    }

    /**
     * deleted_user: with a truthy reassignment id, every record is set to it
     * (the update is not limited to the deleted user's records); otherwise the
     * records naming the deleted user are deleted.
     */
    method DeletedUser(userId: UserId, reassign: Option<UserId>)
      requires Valid()
      modifies this`publishedBy
      ensures Valid()
      ensures publishedBy == AfterUserDeleted(old(publishedBy), userId, reassign)
      ensures forall p :: p in old(publishedBy) && old(publishedBy)[p] == userId && Reassigns(reassign)
                ==> p in publishedBy && publishedBy[p] == reassign.value
      ensures !Reassigns(reassign) ==> forall p :: p in publishedBy <==> p in old(publishedBy) && old(publishedBy)[p] != userId
    {
      if reassign.Some? && reassign.value != 0 {
        publishedBy := map p | p in publishedBy :: reassign.value;
      } else {
        publishedBy := map p | p in publishedBy && publishedBy[p] != userId :: publishedBy[p];
      }
    }
  }

  /**
   * A draft published by `b`, then `b` deleted with reassignment to `c`:
   * the post resolves first to `b` and then to `c`, never as a guess.
   */
  method PublishThenReassign(content: Content, statuses: seq<string>, skipGuessing: PostId -> bool,
                             x: PostId, b: UserId, c: UserId)
    returns (before: int, guessedBefore: bool, after: int, guessedAfter: bool)
    requires Eligible(content, statuses, x)
    requires b != 0 && c != 0
    ensures before == b && !guessedBefore
    ensures after == c && !guessedAfter
  {
    var plugin := new PublishedBy(map[]);
    plugin.TransitionPostStatus("publish", "draft", x, b);
    before := plugin.GetPublisherId(content, statuses, skipGuessing, x);
    guessedBefore := plugin.IsPublisherIdGuessed(x);
    plugin.DeletedUser(b, Some(c));
    after := plugin.GetPublisherId(content, statuses, skipGuessing, x);
    guessedAfter := plugin.IsPublisherIdGuessed(x);
  }

  /**
   * The guess list is never cleared within a request: a post guessed before
   * it is published still reads as guessed after it resolves to its record.
   */
  method GuessOutlivesRecord(content: Content, statuses: seq<string>, skipGuessing: PostId -> bool,
                             x: PostId, b: UserId)
    returns (resolved: int, stillGuessed: bool)
    requires Eligible(content, statuses, x) && !skipGuessing(x)
    requires b != 0
    ensures resolved == b && stillGuessed
  {
    var plugin := new PublishedBy(map[]);
    var first := plugin.GetPublisherId(content, statuses, skipGuessing, x);
    plugin.TransitionPostStatus("publish", "draft", x, b);
    resolved := plugin.GetPublisherId(content, statuses, skipGuessing, x);
    stillGuessed := plugin.IsPublisherIdGuessed(x);
  }
}
