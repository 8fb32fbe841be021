/** The records that the route handlers read and build, the collaborators they
    call, and the trace of calls a handler makes. */
module Entities {
  import opened Wrappers

  /** A post as the data service returns it. `postDate` is the day key of the
      post's `YYYY-MM-DD` date (days since some epoch), so that comparing keys
      compares dates the way subtracting two `Date` values does. */
  datatype Post = Post(id: string, title: string, postDate: int, category: string)

  /** A category as the data service returns it. */
  datatype Category = Category(id: string, category: string)

  /** The fields of a multipart form as `req.body` holds them; an absent field
      is `undefined`. */
  datatype PostForm = PostForm(
    body: Option<string>,
    title: Option<string>,
    category: Option<string>,
    published: Option<string>)

  /** The object handed to the data service to create a post. */
  datatype PostObject = PostObject(
    body: Option<string>,
    title: Option<string>,
    postDate: Option<string>,
    category: Option<string>,
    featureImage: Option<string>,
    published: Option<string>)

  /** The object handed to the data service to create a category. */
  datatype CatObject = CatObject(category: Option<string>)

  /** What the media host answers to a successful upload. */
  datatype Uploaded = Uploaded(url: string)

  /** The four ways the handlers can ask the data service for a list of posts. */
  datatype PostsQuery =
    | Published
    | PublishedByCategory(category: string)
    | ByMinDate(minDate: string)
    | All

  /** One call into the data service, in the order a handler makes it. */
  datatype Call =
    | FetchPosts(query: PostsQuery)
    | GetPostById(id: string)
    | GetCategories
    | AddPost(post: PostObject)
    | AddCategory(cat: CatObject)

  /** How the data service settles each call it can receive. The handlers only
      ever see these outcomes; what the service does inside is not modelled. */
  datatype Repo = Repo(
    publishedPosts: Result<seq<Post>>,
    publishedPostsByCategory: string -> Result<seq<Post>>,
    postsByMinDate: string -> Result<seq<Post>>,
    allPosts: Result<seq<Post>>,
    postById: string -> Result<Post>,
    categories: Result<seq<Category>>,
    addPost: PostObject -> Result<()>,
    addCategory: CatObject -> Result<()>)
  {
    /** The outcome of fetching the posts that `q` asks for. */
    function Posts(q: PostsQuery): Result<seq<Post>> {
      match q
      case Published => publishedPosts
      case PublishedByCategory(c) => publishedPostsByCategory(c)
      case ByMinDate(d) => postsByMinDate(d)
      case All => allPosts
    }
  }

  /** JavaScript truthiness of a query or form field that is a string when
      present: `undefined` and `""` are falsy, every other string is truthy. */
  predicate Truthy(field: Option<string>) {
    field.Some? && field.value != ""
  }

  /** The text every fetch failure is reported with. */
  const NoResults := "no results"
}
