/** The request handlers of server/controllers/newsController.js. The two news
    handlers are decisions from one provider outcome to an HTTP reply; the
    preferences handler updates a user's record in place. */
module NewsController {
  import opened Upstream

  /** The JSON body of a reply: `{message}`, `{news, nextPage}`, or `{news}`
      whose `news` may be undefined (then left out of the JSON). */
  datatype Body =
    | Message(message: string)
    | NewsPage(news: seq<RawArticle>, nextPage: Option<nat>)
    | NewsList(items: Option<seq<RawArticle>>)

  datatype Reply = Reply(status: nat, body: Body)

  const PageSize: nat := 10
  const QuotaTitle: string := "\U{26A0}\U{FE0F} API quota exceeded"
  const InternalError: string := "Internal Server Error"
  const AllNewsFallback: string := "Failed to fetch all news"

  // ---------------------------------------------------------------------------
  // fetchNewsByCategory

  /** The `page` query parameter, 1 when the request has none. */
  function RequestedPage(page: Option<nat>): (p: nat)
    ensures page.None? ==> p == 1
    ensures page.Some? ==> p == page.value
  {
    match page
    case None => 1
    case Some(n) => n
  }

  /** The provider request for a category page: English headlines, ten per
      page, the requested page; filtered by category unless it is "general". */
  function CategoryQuery(category: string, page: Option<nat>): (q: Query)
    ensures q.category.None? <==> category == "general"
    ensures q.category.Some? ==> q.category.value == category
    ensures q.country.None? && q.language == Some("en")
    ensures q.pageSize == Some(PageSize) && q.page == Some(RequestedPage(page))
  {
    var filter := if category == "general" then None else Some(category);
    Query(filter, None, Some("en"), Some(PageSize), Some(RequestedPage(page)))
  }

  /** The stand-in article served when the provider's quota is exhausted;
      `now` is the ISO time of the request. It has no author and no source. */
  function QuotaArticle(now: string): (a: RawArticle)
    ensures a.title == QuotaTitle && a.publishedAt == Some(now)
    ensures a.url == Some("#") && a.urlToImage == Some("https://via.placeholder.com/400x200")
    ensures a.description.Some? && a.content.Some?
    ensures a.author.None? && a.source.None?
  {
    RawArticle(QuotaTitle, None, Some("You\U{2019}ve hit the free-tier NewsAPI limit."), Some("#"),
               Some("https://via.placeholder.com/400x200"), Some(now),
               Some("Please try again later or upgrade the plan."), None)
  }

  /** `fetchNewsByCategory`: one page of a category, fetched live.
      - an answer with no articles (missing or empty list) is a 404 naming the category;
      - any other answer is served unchanged with 200, and `nextPage` is the
        following page exactly when the page is full;
      - a 429 from the provider is served as 200 with the single quota article
        and no next page;
      - every other error is a 500. */
  function FetchNewsByCategory(category: string, page: Option<nat>, fetch: Query -> Outcome, now: string): (reply: Reply)
    ensures reply.status == 200 || reply.status == 404 || reply.status == 500
    ensures var outcome := fetch(CategoryQuery(category, page));
      && (reply.status == 404 <==> outcome.Received? && (outcome.articles.None? || outcome.articles.value == []))
      && (reply.status == 404 ==> reply.body == Message("No news found for category: " + category))
      && (reply.status == 500 <==> outcome.Failed? && outcome.status != Some(TooManyRequests))
      && (reply.status == 500 ==> reply.body == Message(InternalError))
      && (outcome.Received? && outcome.articles.Some? && outcome.articles.value != [] ==>
            reply.status == 200 && reply.body.NewsPage? && reply.body.news == outcome.articles.value)
      && (outcome.Failed? && outcome.status == Some(TooManyRequests) ==>
            reply.status == 200 && reply.body.NewsPage? && reply.body.nextPage.None? &&
            |reply.body.news| == 1 && reply.body.news[0] == QuotaArticle(now))
    ensures reply.status == 200 ==> reply.body.NewsPage?
    ensures reply.body.NewsPage? ==>
              (reply.body.nextPage.Some? <==> fetch(CategoryQuery(category, page)).Received? && |reply.body.news| == PageSize)
    ensures reply.body.NewsPage? && reply.body.nextPage.Some? ==> reply.body.nextPage.value == RequestedPage(page) + 1
  {
    match fetch(CategoryQuery(category, page))
    case Received(articles) =>
      var news := if articles.Some? then articles.value else [];
      if |news| == 0 then
        Reply(404, Message("No news found for category: " + category))
      else
        Reply(200, NewsPage(news, if |news| == PageSize then Some(RequestedPage(page) + 1) else None))
    case Failed(status, _) =>
      if status == Some(TooManyRequests) then
        Reply(200, NewsPage([QuotaArticle(now)], None))
      else
        Reply(500, Message(InternalError))
  }

  // ---------------------------------------------------------------------------
  // fetchAllNews

  /** The provider request of `fetchAllNews`: the first page of ten English
      headlines, whatever the request asked for. */
  function AllNewsQuery(): (q: Query)
    ensures q.category.None? && q.country.None? && q.language == Some("en")
    ensures q.pageSize == Some(PageSize) && q.page == Some(1)
  {
    Query(None, None, Some("en"), Some(PageSize), Some(1))
  }

  /** `fetchAllNews`: the provider's `articles` passed through unchanged with
      200; any error, a 429 included, is a 500 carrying the error's message,
      or a fixed text when the message is empty. */
  function FetchAllNews(fetch: Query -> Outcome): (reply: Reply)
    ensures var outcome := fetch(AllNewsQuery());
      && (reply.status == 200 <==> outcome.Received?)
      && (reply.status == 500 <==> outcome.Failed?)
      && (outcome.Received? ==> reply.body == NewsList(outcome.articles))
      && (outcome.Failed? ==> reply.body.Message? && reply.body.message != "" &&
                              (outcome.message != "" ==> reply.body.message == outcome.message) &&
                              (outcome.message == "" ==> reply.body == Message(AllNewsFallback)))
  {
    match fetch(AllNewsQuery())
    case Received(articles) => Reply(200, NewsList(articles))
    case Failed(_, message) => Reply(500, Message(if message != "" then message else AllNewsFallback))
  }

  /** The two live paths ask the provider the same question for the first page
      of "general": both serve the same non-empty article list, but only the
      category path turns an exhausted quota into a 200. */
  lemma GeneralFirstPageIsAllNews(fetch: Query -> Outcome, now: string)
    ensures CategoryQuery("general", None) == AllNewsQuery()
    ensures var outcome := fetch(AllNewsQuery());
      outcome.Received? && outcome.articles.Some? && outcome.articles.value != [] ==>
        FetchNewsByCategory("general", None, fetch, now).body.news == FetchAllNews(fetch).body.items.value
    ensures fetch(AllNewsQuery()).Failed? && fetch(AllNewsQuery()).status == Some(TooManyRequests) ==>
              FetchNewsByCategory("general", None, fetch, now).status == 200 && FetchAllNews(fetch).status == 500
  {
  }

  // ---------------------------------------------------------------------------
  // Preferences

  /** `[...current, ...added]`: the stored list followed by the new one, order
      kept, nothing removed or merged. */
  function Appended(current: seq<string>, added: seq<string>): (r: seq<string>)
    ensures |r| == |current| + |added|
    ensures r[..|current|] == current && r[|current|..] == added
  {
    current + added
  }

  /** The `User` collection, reduced to each user's preference list. */
  class Users {
    var preferences: map<string, seq<string>>

    constructor (initial: map<string, seq<string>>)
      ensures preferences == initial
    {
      preferences := initial;
    }

    /** `Preferences`: appends `added` to the preferences of user `id`. A
        missing user is a 404; a body without a preference list makes the
        spread throw, which is a 500; neither changes anything. */
    method Preferences(id: string, added: Option<seq<string>>) returns (reply: Reply)
      modifies this
      ensures id !in old(preferences) ==> reply == Reply(404, Message("User not found")) && preferences == old(preferences)
      ensures id in old(preferences) && added.None? ==> reply.status == 500 && preferences == old(preferences)
      ensures id in old(preferences) && added.Some? ==>
                reply == Reply(200, Message("Preferences saved successfully")) &&
                preferences == old(preferences)[id := Appended(old(preferences)[id], added.value)]
    {
      if id !in preferences {
        return Reply(404, Message("User not found"));
      }
      if added.None? {
        return Reply(500, Message("preferences is not iterable"));
      }
      preferences := preferences[id := Appended(preferences[id], added.value)];
      reply := Reply(200, Message("Preferences saved successfully"));
    }
  }
}
