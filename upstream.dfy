/** The news provider as seen by the server: the raw article records it sends,
    the request parameters the server sets, and the three ways a request can end.
    The provider itself is not modelled; callers receive it as a function from
    request to outcome. */
module Upstream {

  datatype Option<+T> = None | Some(value: T)

  /** `source: {id, name}` of a provider article; both parts may be null. */
  datatype Outlet = Outlet(id: Option<string>, name: Option<string>)

  /** One element of the provider's `articles` array. Every descriptive field
      may be null; `source` may be absent altogether. */
  datatype RawArticle = RawArticle(
    title: string,
    author: Option<string>,
    description: Option<string>,
    url: Option<string>,
    urlToImage: Option<string>,
    publishedAt: Option<string>,
    content: Option<string>,
    source: Option<Outlet>)

  /** The query parameters of a `top-headlines` request, in the order the server
      writes them; a parameter the server leaves out is `None`. The API key is
      always appended and is not part of the model. */
  datatype Query = Query(
    category: Option<string>,
    country: Option<string>,
    language: Option<string>,
    pageSize: Option<nat>,
    page: Option<nat>)

  /** What a request yields: a response body whose `articles` may be missing,
      or a thrown error carrying the HTTP status of the provider's reply (none
      when there was no reply) and the error's message. */
  datatype Outcome =
    | Received(articles: Option<seq<RawArticle>>)
    | Failed(status: Option<int>, message: string)

  /** HTTP status with which the provider signals an exhausted quota. */
  const TooManyRequests: int := 429
}
