/** The other handlers with decisions in them: the filtered `GET /posts`
    listing, the `POST /posts/add` upload-then-persist workflow and the
    `POST /categories/add` guard. */
module Routes {
  import opened Wrappers
  import opened Entities
  import opened DateFormat

  /** How a handler ends: nothing is ever sent; a redirect; an error value
      sent as the response body; an exception thrown in the handler itself,
      which Express answers with its default error page (status 500); or a
      promise rejection that no handler catches, which Node reports as an
      unhandled rejection and by default ends the process on. */
  datatype Response =
    | NoResponse
    | Redirect(location: string)
    | SendError(error: Error)
    | Throws
    | Unhandled(error: Error)

  /** What `GET /posts` renders into the `posts` template. */
  datatype PostsPage = ShowPosts(posts: seq<Post>) | ShowMessage(message: string)

  /** The one fetch `GET /posts` makes, and what it renders from the outcome. */
  datatype Listing = Listing(call: Call, page: PostsPage)

  /** The message `GET /posts` shows when a fetch succeeds with no posts. */
  const NoResultsTitle := "No Results"

  /** The filter `GET /posts` honours: a truthy `category` wins over a
      truthy `minDate`, and with neither every post is listed. */
  function PostsFilter(category: Option<string>, minDate: Option<string>): (q: PostsQuery)
    ensures q.PublishedByCategory? <==> Truthy(category)
    ensures q.ByMinDate? <==> !Truthy(category) && Truthy(minDate)
    ensures q == All <==> !Truthy(category) && !Truthy(minDate)
    ensures q.PublishedByCategory? ==> q.category == category.value
    ensures q.ByMinDate? ==> q.minDate == minDate.value
  {
    if Truthy(category) then PublishedByCategory(category.value)
    else if Truthy(minDate) then ByMinDate(minDate.value)
    else All
  }

  /** `GET /posts`: exactly one fetch, chosen by `PostsFilter`; a non-empty
      result is listed as fetched, an empty one shows "No Results" and a
      failure shows "no results". */
  function PostsListing(category: Option<string>, minDate: Option<string>, repo: Repo): (r: Listing)
    ensures r.call == FetchPosts(PostsFilter(category, minDate))
    ensures var outcome := repo.Posts(PostsFilter(category, minDate));
      && (r.page.ShowPosts? <==> outcome.Ok? && outcome.value != [])
      && (r.page.ShowPosts? ==> r.page.posts == outcome.value)
      && (r.page == ShowMessage(NoResultsTitle) <==> outcome == Ok([]))
      && (r.page == ShowMessage(NoResults) <==> outcome.Err?)
  {
    var q := PostsFilter(category, minDate);
    var page :=
      match repo.Posts(q)
      case Ok(data) => if |data| > 0 then ShowPosts(data) else ShowMessage(NoResultsTitle)
      case Err(_) => ShowMessage(NoResults);
    Listing(FetchPosts(q), page)
  }

  /** The `postObject` of `POST /posts/add`, which starts out as `{}` and is
      filled in one property at a time. */
  class PostRecord {
    var body: Option<string>
    var title: Option<string>
    var postDate: Option<string>
    var category: Option<string>
    var featureImage: Option<string>
    var published: Option<string>

    constructor ()
      ensures Snapshot() == PostObject(None, None, None, None, None, None)
    {
      body, title, postDate := None, None, None;
      category, featureImage, published := None, None, None;
    }

    /** The properties set so far, as the data service receives them. */
    function Snapshot(): PostObject
      reads this
    {
      PostObject(body, title, postDate, category, featureImage, published)
    }
  }

  /** The post `POST /posts/add` persists: every form field copied verbatim,
      the uploaded image's URL, and today's ISO calendar date. */
  predicate BuiltFrom(o: PostObject, form: PostForm, uploaded: Uploaded, now: DateFields)
    requires ValidFields(now)
  {
    && o.body == form.body
    && o.title == form.title
    && o.category == form.category
    && o.published == form.published
    && o.featureImage == Some(uploaded.url)
    && o.postDate == Some(StoredPostDate(now))
  }

  /** `POST /posts/add`: upload, build, guard, persist. `upload` is how the
      image upload settled, `now` the clock read when the record is built. A
      failed upload is sent back as the response and nothing is persisted;
      otherwise the post is persisted only when its title is truthy, and the
      client is redirected when persisting succeeds. A falsy title sends
      nothing; a failed `addPost` is a rejection nobody catches, because the
      inner promise is neither returned nor given a `catch`. */
  method AddPostRoute(form: PostForm, upload: Result<Uploaded>, now: DateFields, repo: Repo)
    returns (response: Response, calls: seq<Call>)
    requires ValidFields(now)
    ensures upload.Err? ==> response == SendError(upload.error) && calls == []
    ensures |calls| <= 1
    ensures |calls| == 1 <==> upload.Ok? && Truthy(form.title)
    ensures |calls| == 1 ==> calls[0].AddPost? && BuiltFrom(calls[0].post, form, upload.value, now)
    ensures response == Redirect("/posts") <==> |calls| == 1 && repo.addPost(calls[0].post).Ok?
    ensures response.Unhandled? <==> |calls| == 1 && repo.addPost(calls[0].post).Err?
    ensures response.Unhandled? ==> response.error == repo.addPost(calls[0].post).error
    ensures response == NoResponse <==> upload.Ok? && !Truthy(form.title)
  {
    match upload {
      case Err(e) =>
        response, calls := SendError(e), [];
      case Ok(uploaded) =>
        var postObject := new PostRecord();
        postObject.body := form.body;
        postObject.title := form.title;
        postObject.postDate := Some(StoredPostDate(now));
        postObject.category := form.category;
        postObject.featureImage := Some(uploaded.url);
        postObject.published := form.published;
        var built := postObject.Snapshot();
        response, calls := NoResponse, [];
        if Truthy(built.title) {
          calls := [AddPost(built)];
          match repo.addPost(built) {
            case Ok(_) =>
              response := Redirect("/posts");
            case Err(e) =>
              response := Unhandled(e);
          }
        }
    }
  }

  /** What `POST /categories/add` does: the calls it makes and its response. */
  datatype CategoryAdd = CategoryAdd(calls: seq<Call>, response: Response)

  /** `POST /categories/add`. `body` is `req.body`: absent unless some
      body-parsing middleware has filled it in, and then holding the form's
      `category` field, which may itself be absent. Reading `category` from
      an absent body throws before anything is called. Otherwise the category
      is added unless the field is the empty string (an absent field passes
      the guard), and the client is redirected only when adding succeeds; a
      failed add is only logged. */
  function AddCategoryRoute(body: Option<Option<string>>, repo: Repo): (r: CategoryAdd)
    ensures r.response == Throws <==> body.None?
    ensures r.calls == [] <==> body.None? || body.value == Some("")
    ensures r.calls != [] ==> r.calls == [AddCategory(CatObject(body.value))]
    ensures r.response == Redirect("/categories") <==>
      body.Some? && body.value != Some("") && repo.addCategory(CatObject(body.value)).Ok?
    ensures body.Some? && r.response != Redirect("/categories") ==> r.response == NoResponse
  {
    match body
    case None => CategoryAdd([], Throws)
    case Some(category) =>
      var catObject := CatObject(category);
      if category != Some("") then
        CategoryAdd([AddCategory(catObject)], if repo.addCategory(catObject).Ok? then Redirect("/categories") else NoResponse)
      else
        CategoryAdd([], NoResponse)
  }

  /** `server.js` mounts no middleware that parses a urlencoded or JSON body
      (only `/posts/add` runs multer), so `req.body` is never set for
      `POST /categories/add`: as written, every request throws and no
      category is ever added. */
  lemma CategoryAddAlwaysThrows(repo: Repo)
    ensures AddCategoryRoute(None, repo) == CategoryAdd([], Throws)
  {
  }
}
