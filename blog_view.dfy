/** The `GET /blog` and `GET /blog/:id` handlers: each builds a `viewData`
    object one property at a time, keeping the failure of every data source
    in a property of its own, and renders the `blog` template with it. */
module BlogView {
  import opened Wrappers
  import opened Entities
  import opened DateSort

  /** What the `blog` template receives as `data`. */
  datatype ViewModel = ViewModel(
    posts: Option<seq<Post>>,
    post: Option<Post>,
    categories: Option<seq<Category>>,
    message: Option<string>,
    categoriesMessage: Option<string>)

  /** The `viewData` object a handler fills in; it starts out as `{}`. */
  class ViewData {
    var posts: Option<seq<Post>>
    var post: Option<Post>
    var categories: Option<seq<Category>>
    var message: Option<string>
    var categoriesMessage: Option<string>

    constructor ()
      ensures Snapshot() == ViewModel(None, None, None, None, None)
    {
      posts, post, categories := None, None, None;
      message, categoriesMessage := None, None;
    }

    /** The properties set so far, as the template will see them. */
    function Snapshot(): ViewModel
      reads this
    {
      ViewModel(posts, post, categories, message, categoriesMessage)
    }
  }

  /** A response of a blog handler: the template rendered with `data` and
      an optional top-level `message`, or an exception thrown before any
      response is sent. */
  datatype BlogPage = Render(data: ViewModel, message: Option<string>) | Throws

  /** The extra message `/blog` renders when it has no posts to show. */
  const TryAnother := "Please try another post / category"

  /** The fetch a blog page makes for its `category` query: posts of that
      category when the query is truthy, every published post otherwise. */
  function BlogPostsQuery(category: Option<string>): (q: PostsQuery)
    ensures q.PublishedByCategory? <==> Truthy(category)
    ensures q.PublishedByCategory? ==> q.category == category.value
    ensures !q.PublishedByCategory? ==> q == Published
  {
    if Truthy(category) then PublishedByCategory(category.value) else Published
  }

  /** Awaits the fetch for `q` and sorts what it returns in place, newest
      first; a rejection is passed on untouched. */
  method FetchSorted(q: PostsQuery, repo: Repo) returns (fetched: Result<seq<Post>>)
    ensures fetched.Ok? <==> repo.Posts(q).Ok?
    ensures fetched.Ok? ==> fetched.value == SortDesc(repo.Posts(q).value)
    ensures fetched.Err? ==> fetched == repo.Posts(q)
  {
    match repo.Posts(q)
    case Err(e) =>
      fetched := Err(e);
    case Ok(ps) =>
      var posts := new Post[|ps|](i requires 0 <= i < |ps| => ps[i]);
      assert posts[..] == ps;
      SortByDateDesc(posts);
      fetched := Ok(posts[..]);
  }

  /** `GET /blog`. The featured `post` is the head of the sorted list; a
      failed post fetch leaves `posts` and `post` unset and sets `message`;
      the categories are fetched regardless, and their failure sets only
      `categoriesMessage`. The page is rendered by the corrected
      `RenderBlog`; the handler as written throws whenever the post fetch
      fails. */
  method Blog(category: Option<string>, repo: Repo) returns (page: BlogPage, calls: seq<Call>)
    ensures calls == [FetchPosts(BlogPostsQuery(category)), GetCategories]
    ensures page.Render?
    ensures var fetched := repo.Posts(BlogPostsQuery(category));
      && (fetched.Ok? ==>
            && page.data.posts == Some(SortDesc(fetched.value))
            && page.data.post == (if fetched.value == [] then None else Some(SortDesc(fetched.value)[0]))
            && page.data.message == None)
      && (fetched.Err? ==>
            && page.data.posts == None
            && page.data.post == None
            && page.data.message == Some(NoResults)
            && RenderBlogAsWritten(page.data) == Throws)
      && page.message == (if fetched.Err? || fetched.value == [] then Some(TryAnother) else None)
    ensures repo.categories.Ok? ==>
      page.data.categories == Some(repo.categories.value) && page.data.categoriesMessage == None
    ensures repo.categories.Err? ==>
      page.data.categories == None && page.data.categoriesMessage == Some(NoResults)
  {
    var viewData := new ViewData();
    var q := BlogPostsQuery(category);
    var fetched := FetchSorted(q, repo);
    match fetched {
      case Ok(posts) =>
        viewData.posts := Some(posts);
        viewData.post := if |posts| > 0 then Some(posts[0]) else None;
      case Err(_) =>
        viewData.message := Some(NoResults);
    }
    match repo.categories {
      case Ok(cs) =>
        viewData.categories := Some(cs);
      case Err(_) =>
        viewData.categoriesMessage := Some(NoResults);
    }
    calls := [FetchPosts(q), GetCategories];
    page := RenderBlog(viewData.Snapshot());
  }

  /** `GET /blog/:id`. The sidebar list is fetched and sorted as in `/blog`,
      but the featured `post` comes only from the by-id fetch, whose failure
      sets `message` without touching `posts`. Always renders. */
  method BlogById(id: string, category: Option<string>, repo: Repo) returns (page: BlogPage, calls: seq<Call>)
    ensures calls == [FetchPosts(BlogPostsQuery(category)), GetPostById(id), GetCategories]
    ensures page.Render? && page.message == None
    ensures var fetched := repo.Posts(BlogPostsQuery(category));
      && (fetched.Ok? ==> page.data.posts == Some(SortDesc(fetched.value)))
      && (fetched.Err? ==> page.data.posts == None)
      && (page.data.message == Some(NoResults) <==> fetched.Err? || repo.postById(id).Err?)
      && (page.data.message.None? <==> fetched.Ok? && repo.postById(id).Ok?)
    ensures repo.postById(id).Ok? ==> page.data.post == Some(repo.postById(id).value)
    ensures repo.postById(id).Err? ==> page.data.post == None
    ensures repo.categories.Ok? ==>
      page.data.categories == Some(repo.categories.value) && page.data.categoriesMessage == None
    ensures repo.categories.Err? ==>
      page.data.categories == None && page.data.categoriesMessage == Some(NoResults)
  {
    var viewData := new ViewData();
    var q := BlogPostsQuery(category);
    var fetched := FetchSorted(q, repo);
    match fetched {
      case Ok(posts) =>
        viewData.posts := Some(posts);
      case Err(_) =>
        viewData.message := Some(NoResults);
    }
    match repo.postById(id) {
      case Ok(p) =>
        viewData.post := Some(p);
      case Err(_) =>
        viewData.message := Some(NoResults);
    }
    match repo.categories {
      case Ok(cs) =>
        viewData.categories := Some(cs);
      case Err(_) =>
        viewData.categoriesMessage := Some(NoResults);
    }
    calls := [FetchPosts(q), GetPostById(id), GetCategories];
    page := Render(viewData.Snapshot(), None);
  }

  /** The end of `/blog` as written: it reads `viewData.posts.length`, which
      throws when the post fetch failed and `posts` was never set. */
  function RenderBlogAsWritten(vm: ViewModel): (page: BlogPage)
    ensures page.Throws? <==> vm.posts.None?
    ensures page.Render? ==> page.data == vm
    ensures page.Render? ==> page.message == (if vm.posts.value == [] then Some(TryAnother) else None)
  {
    match vm.posts
    case None => Throws
    case Some(ps) => if |ps| > 0 then Render(vm, None) else Render(vm, Some(TryAnother))
  }

  /** The end of `/blog` as evidently intended: a missing post list counts as
      an empty one, so the page always renders, with the extra message when
      there is nothing to show, and agrees with the code as written wherever
      that does not throw. */
  function RenderBlog(vm: ViewModel): (page: BlogPage)
    ensures page.Render? && page.data == vm
    ensures page.message == (if vm.posts.None? || vm.posts.value == [] then Some(TryAnother) else None)
    ensures !RenderBlogAsWritten(vm).Throws? ==> page == RenderBlogAsWritten(vm)
  {
    match vm.posts
    case None => Render(vm, Some(TryAnother))
    case Some(ps) => RenderBlogAsWritten(vm)
  }
}
