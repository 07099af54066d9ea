/**
 * What the Published By plugin contributes to the admin post listing: when
 * the column appears, how a 'published-by' request narrows the listing query
 * to the posts recorded as published by one user, and the link to a user's
 * profile screen.
 */
module Listing {

  import opened Wrappers
  import opened Decimal
  import opened PublishedByPlugin

  /** The query-string parameters of the admin request ($_GET). */
  type Params = map<string, string>

  /** The request as the listing code sees it. */
  datatype Request = Request(isAdmin: bool, pagenow: string, params: Params)

  /** PHP's empty() on a string: the empty string and "0" are empty. */
  predicate IsEmpty(s: string) {
    s == "" || s == "0"
  }

  /**
   * include_column: the column is shown on the unfiltered listing, on the
   * 'all' listing, and on a listing of a status that shows a publisher.
   */
  predicate IncludeColumn(params: Params, statuses: seq<string>) {
    "post_status" !in params || "all" == params["post_status"] || params["post_status"] in statuses
  }

  /**
   * On a listing filtered to one status (not 'all'), the column is shown
   * exactly when every post of that status is eligible for a publisher.
   */
  lemma IncludeColumnMatchesEligibility(params: Params, statuses: seq<string>, content: Content, postId: PostId)
    requires "post_status" in params && params["post_status"] != "all"
    requires postId in content.posts && content.posts[postId].status == params["post_status"]
    ensures IncludeColumn(params, statuses) <==> Eligible(content, statuses, postId)
  {
  }

  /**
   * When the column is left out of a status listing, every post of that
   * status resolves to no publisher.
   */
  lemma HiddenColumnMeansNoPublisher(params: Params, statuses: seq<string>, content: Content,
                                     publishedBy: map<PostId, int>, skipGuessing: PostId -> bool, postId: PostId)
    requires !IncludeColumn(params, statuses)
    requires postId in content.posts && content.posts[postId].status == params["post_status"]
    ensures Publisher(content, publishedBy, statuses, skipGuessing, postId) == 0
  {
  }

  /** The conditions under which filter_by_query narrows the query. */
  predicate FiltersByPublisher(request: Request, statuses: seq<string>) {
    && request.isAdmin
    && IncludeColumn(request.params, statuses)
    && request.pagenow == "edit.php"
    && "published-by" in request.params
    && !IsEmpty(request.params["published-by"])
  }

  /**
   * filter_by_query: the query variables after the plugin has looked at the
   * request. When it narrows, meta_key and meta_value select the posts whose
   * record is the requested user; nothing else in the query changes.
   */
  function FilterByQuery(request: Request, statuses: seq<string>, queryVars: map<string, string>): (r: map<string, string>)
    ensures FiltersByPublisher(request, statuses) ==>
              && "meta_key" in r && r["meta_key"] == MetaKey
              && "meta_value" in r && r["meta_value"] == request.params["published-by"]
    ensures !FiltersByPublisher(request, statuses) ==> r == queryVars
    ensures forall k :: k != "meta_key" && k != "meta_value" ==>
              (k in r <==> k in queryVars) && (k in r ==> r[k] == queryVars[k])
  {
    if !request.isAdmin || !IncludeColumn(request.params, statuses) then queryVars
    else if request.isAdmin && request.pagenow == "edit.php"
            && "published-by" in request.params && !IsEmpty(request.params["published-by"])
    then queryVars["meta_key" := MetaKey]["meta_value" := request.params["published-by"]]
    else queryVars
  }

  /** The meta comparison the listing query applies: the stored id's text equals the requested value. */
  predicate RecordMatches(publishedBy: map<PostId, int>, postId: PostId, metaValue: string) {
    postId in publishedBy && IntToString(publishedBy[postId]) == metaValue
  }

  /**
   * Asking for the listing of user `u` admits exactly the posts whose record
   * is `u`.
   */
  lemma FilterSelectsPostsOfPublisher(request: Request, statuses: seq<string>, queryVars: map<string, string>,
                                      publishedBy: map<PostId, int>, u: UserId, postId: PostId)
    requires FiltersByPublisher(request, statuses)
    requires request.params["published-by"] == IntToString(u)
    ensures var r := FilterByQuery(request, statuses, queryVars);
            && r["meta_key"] == MetaKey
            && (RecordMatches(publishedBy, postId, r["meta_value"]) <==> postId in publishedBy && publishedBy[postId] == u)
  {
    if postId in publishedBy {
      IntToStringInjective(publishedBy[postId], u);
    }
  }

  /** The path of a user's profile screen, relative to the admin URL. */
  function UserEditPrefix(adminUrl: string): string {
    adminUrl + "user-edit.php?user_id="
  }

  /** Reads the user id back out of a profile-screen URL. */
  function UserIdOfEditUrl(adminUrl: string, url: string): Option<int> {
    if UserEditPrefix(adminUrl) <= url then ParseDecimal(url[|UserEditPrefix(adminUrl)|..]) else None
  }

  /**
   * get_user_url: the profile-screen link for a non-zero user id, which
   * names that user; nothing for 0. `adminUrl` is the site's admin URL.
   */
  function GetUserUrl(adminUrl: string, userId: int): (r: Option<string>)
    ensures r.Some? <==> userId != 0
    ensures r.Some? ==> r.value == UserEditPrefix(adminUrl) + IntToString(userId)
    ensures r.Some? ==> UserEditPrefix(adminUrl) <= r.value && UserIdOfEditUrl(adminUrl, r.value) == Some(userId)
  {
    if userId != 0 then
      var url := UserEditPrefix(adminUrl) + IntToString(userId);
      assert url[|UserEditPrefix(adminUrl)|..] == IntToString(userId);
      IntRoundTrip(userId);
      Some(url)
    else
      None
  }

  /** The links for users 2 and 3 end in exactly "user_id=2" and "user_id=3"; user 0 has none. */
  lemma UserUrlExamples(adminUrl: string)
    ensures GetUserUrl(adminUrl, 2) == Some(adminUrl + "user-edit.php?user_id=2")
    ensures GetUserUrl(adminUrl, 3) == Some(adminUrl + "user-edit.php?user_id=3")
    ensures GetUserUrl(adminUrl, 0) == None
  {
    assert IntToString(2) == "2" by { assert DigitChar(2) == '2'; }
    assert IntToString(3) == "3" by { assert DigitChar(3) == '3'; }
    assert UserEditPrefix(adminUrl) + "2" == adminUrl + "user-edit.php?user_id=2";
    assert UserEditPrefix(adminUrl) + "3" == adminUrl + "user-edit.php?user_id=3";
  }

  /** Distinct users get distinct links. */
  lemma UserUrlsAreDistinct(adminUrl: string, u: int, v: int)
    requires u != 0 && v != 0 && u != v
    ensures GetUserUrl(adminUrl, u) != GetUserUrl(adminUrl, v)
  {
    var ru := GetUserUrl(adminUrl, u);
    var rv := GetUserUrl(adminUrl, v);
    assert UserIdOfEditUrl(adminUrl, ru.value) != UserIdOfEditUrl(adminUrl, rv.value);
  }
}
