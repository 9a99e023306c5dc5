/**
 * The "Profile Posts" renderer: its declared configuration, its title,
 * the parameters it renders with, and the list of recent profile posts it
 * shows: fetched three times over, filtered by the viewing visitor's
 * permissions and ignore list, and cut to the limit.
 *
 * The fetch, the permission check and the post preparation are host
 * code; they come in as the functions of `PostHosts`.
 */
module ProfilePosts {

  import opened Wrappers
  import opened PhpValues
  import opened RendererConfig
  import opened WidgetRenderer

  const LimitKey := "limit"
  const ShowUpdateFormKey := "show_update_form"
  const DefaultLimit := 5
  const RecentPhrase := "wf_widget_profile_posts_type_recent"
  const ForumListPosition := "forum_list"

  /** Lines 23-35: what the renderer declares. */
  const ProfilePostsDeclared := Declared(
    Some("Profile Posts"), None,
    Some(map[LimitKey := UnsignedInput, ShowUpdateFormKey := BinaryInput]),
    Some(true), Some(true), Some(3600), None, None)

  /** The resolved configuration caches per user for an hour and accepts the limit and the update-form switch. */
  lemma ProfilePostsConfiguration(className: string)
    ensures var c := Resolve(className, ProfilePostsDeclared);
      && c.name == "Profile Posts"
      && c.useCache && c.useUserCache && c.cacheSeconds == 3600
      && c.options[LimitKey] == UnsignedInput && c.options[ShowUpdateFormKey] == BinaryInput
      && CacheSecondsKey in c.options && !c.canAjaxLoad && c.useWrapper
  {
    var c := Resolve(className, ProfilePostsDeclared);
    assert LimitKey !in InjectedOptions(true) && ShowUpdateFormKey !in InjectedOptions(true);
  }

  /** Lines 14-21: an empty title shows the "recent profile posts" phrase; any other goes through the common title logic. */
  function ProfilePostsTitle(w: Widget, rendererName: string): (r: Markup)
    ensures w.title == "" || w.title == "0" ==> r == Phrase(RecentPhrase)
    ensures w.title != "" && w.title != "0" ==> r == ExtraPrepareTitle(w, rendererName)
  {
    if w.title == "" || w.title == "0" then Phrase(RecentPhrase) else ExtraPrepareTitle(w, rendererName)
  }

  /** The override differs from the common title logic only for an empty title, where that would show the renderer's name. */
  lemma TitleOverrideOnlyForEmptyTitle(w: Widget, rendererName: string)
    ensures ProfilePostsTitle(w, rendererName) != ExtraPrepareTitle(w, rendererName) <==> w.title == "" || w.title == "0"
  {
  }

  /** Lines 62-64: an empty limit becomes 5. */
  function Limit(options: seq<Entry>): (r: int)
    ensures EmptyAt(options, LimitKey) ==> r == DefaultLimit
    ensures !EmptyAt(options, LimitKey) ==> r == IntValue(Get(options, LimitKey))
  {
    if EmptyAt(options, LimitKey) then DefaultLimit else IntValue(Get(options, LimitKey))
  }

  /** Lines 69-73: the update form is offered only when switched on and the visitor may update their status. */
  function CanUpdateStatus(options: seq<Entry>, visitorCanUpdateStatus: bool): (r: bool)
    ensures r <==> !EmptyAt(options, ShowUpdateFormKey) && visitorCanUpdateStatus
  {
    if !EmptyAt(options, ShowUpdateFormKey) then visitorCanUpdateStatus else false
  }

  /** A profile post as the host returns it: its id, and whether the visitor ignores its poster once prepared. */
  datatype Post = Post(id: int, isIgnored: bool, fields: seq<Entry>)

  /** The host calls of `_getProfilePosts`: the latest visible posts up to a count, the view check, and preparation. */
  datatype PostHosts = PostHosts(
    latest: int -> seq<Post>,
    canView: Post -> bool,
    prepare: Post -> Post)

  /** `array_slice($a, 0, $length, true)`: a non-negative length keeps that many from the front, a negative one drops that many from the back. */
  function SliceFront<T>(s: seq<T>, length: int): (r: seq<T>)
    ensures length >= 0 ==> |r| == if length < |s| then length else |s|
    ensures r <= s
  {
    if length >= 0 then (if length < |s| then s[..length] else s)
    else if -length < |s| then s[..|s| + length] else []
  }

  /** Lines 111-121: the posts the visitor may view, prepared, without those whose poster they ignore; order kept. */
  function Visible(hosts: PostHosts, posts: seq<Post>): (r: seq<Post>)
  {
    if posts == [] then []
    else
      var last := posts[|posts| - 1];
      var prepared := hosts.prepare(last);
      Visible(hosts, posts[..|posts| - 1])
        + (if hosts.canView(last) && !prepared.isIgnored then [prepared] else [])
  }

  /**
   * Lines 85-124: on the forum list, with the list's own posts in the
   * parameters and the same count, those posts; otherwise the latest
   * `3 * limit`, filtered, and cut to `limit`.
   */
  function RecentPosts(hosts: PostHosts, options: seq<Entry>, position: string,
                       paramsPosts: Option<seq<Post>>, forumListCount: int): seq<Post>
  {
    var limit := Limit(options);
    if position == ForumListPosition && paramsPosts.Some? && limit == forumListCount then paramsPosts.value
    else SliceFront(Visible(hosts, hosts.latest(limit * 3)), limit)
  }

  /** Every post the filter lets through is the prepared form of a fetched post the visitor may view and does not ignore. */
  lemma {:induction false} VisibleIsFiltered(hosts: PostHosts, posts: seq<Post>, p: Post)
    ensures p in Visible(hosts, posts) <==>
      exists q :: q in posts && hosts.canView(q) && p == hosts.prepare(q) && !p.isIgnored
  {
    if posts != [] {
      var init := posts[..|posts| - 1];
      var last := posts[|posts| - 1];
      VisibleIsFiltered(hosts, init, p);
      assert posts == init + [last];
      if exists q :: q in posts && hosts.canView(q) && p == hosts.prepare(q) && !p.isIgnored {
        var q :| q in posts && hosts.canView(q) && p == hosts.prepare(q) && !p.isIgnored;
        if q != last {
          assert q in init;
        }
      }
    }
  }

  /** The filter never yields more posts than were fetched. */
  lemma {:induction false} VisibleIsNoLonger(hosts: PostHosts, posts: seq<Post>)
    ensures |Visible(hosts, posts)| <= |posts|
  {
    if posts != [] {
      VisibleIsNoLonger(hosts, posts[..|posts| - 1]);
    }
  }

  /**
   * Lines 104, 111-122: off the forum-list shortcut, at most `limit` posts
   * are shown, each viewable and not ignored, and they are the first
   * visible ones in the fetched order.
   */
  lemma RecentPostsAreVisibleAndBounded(hosts: PostHosts, options: seq<Entry>, position: string,
                                        paramsPosts: Option<seq<Post>>, forumListCount: int)
    requires !(position == ForumListPosition && paramsPosts.Some? && Limit(options) == forumListCount)
    ensures var r := RecentPosts(hosts, options, position, paramsPosts, forumListCount);
      var visible := Visible(hosts, hosts.latest(Limit(options) * 3));
      && r <= visible
      && (Limit(options) >= 0 ==> |r| <= Limit(options))
      && (forall p :: p in r ==> !p.isIgnored && exists q :: q in hosts.latest(Limit(options) * 3) && hosts.canView(q) && p == hosts.prepare(q))
  {
    var r := RecentPosts(hosts, options, position, paramsPosts, forumListCount);
    var fetched := hosts.latest(Limit(options) * 3);
    forall p | p in r
      ensures !p.isIgnored && exists q :: q in fetched && hosts.canView(q) && p == hosts.prepare(q)
    {
      VisibleIsFiltered(hosts, fetched, p);
    }
  }

  /** Lines 85-90: the forum-list shortcut hands back the list's own posts untouched. */
  lemma ForumListShortcut(hosts: PostHosts, options: seq<Entry>, posts: seq<Post>, forumListCount: int)
    requires Limit(options) == forumListCount
    ensures RecentPosts(hosts, options, ForumListPosition, Some(posts), forumListCount) == posts
  {
  }

  /** `_getProfilePosts`, with the filter loop of lines 111-121 and the slice of line 122. */
  method GetProfilePosts(hosts: PostHosts, options: seq<Entry>, position: string,
                         paramsPosts: Option<seq<Post>>, forumListCount: int)
    returns (posts: seq<Post>)
    ensures posts == RecentPosts(hosts, options, position, paramsPosts, forumListCount)
  {
    var limit := Limit(options);
    if position == ForumListPosition && paramsPosts.Some? && limit == forumListCount {
      return paramsPosts.value;
    }
    var fetched := hosts.latest(limit * 3);
    posts := [];
    for i := 0 to |fetched|
      invariant posts == Visible(hosts, fetched[..i])
    {
      assert fetched[..i + 1][..i] == fetched[..i];
      var viewable := hosts.canView(fetched[i]);
      var prepared := hosts.prepare(fetched[i]);
      if viewable && !prepared.isIgnored {
        posts := posts + [prepared];
      }
    }
    assert fetched[..|fetched|] == fetched;
    posts := SliceFront(posts, limit);
  }
}
