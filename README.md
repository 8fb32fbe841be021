# Blog server route logic, modelled in Dafny

This project models the decision logic inside the route handlers of a small
Express blogging server (`server.js`). The server lists and filters blog posts,
creates posts with a featured image stored on a media host, and adds
categories. Everything it knows about posts and categories comes from a data
service module (`blog-service`). Images go to an upload service (Cloudinary).
Neither is part of this model. Each call into them is an input, the settled
outcome of one promise: `Ok(value)` or `Err(reason)`.

The model has these modules:

- `Wrappers` (`wrappers.dfy`): `Option`, which stands for a property that may be
  `undefined`, and `Result`, the outcome of one awaited call.
- `Entities` (`entities.dfy`): the records (`Post`, `Category`, the submitted
  `PostForm`, the `PostObject` and `CatObject` handed to the data service).
  `Repo` says how the data service settles every call it can receive. `Call`
  is one entry in the trace of calls a handler makes. `Truthy` is JavaScript
  truthiness of a string-or-undefined field.
- `DateSort` (`date_sort.dfy`): the in-place `posts.sort(...)`, newest first by
  `postDate`. `SortByDateDesc` is an insertion sort on an `array`. It is proved
  equal to the specification function `SortDesc`. The lemmas show that
  `SortDesc` is ordered, a permutation of its input and stable. They also show
  that it is the only order with these properties, so any stable sort the
  JavaScript engine uses gives the same result.
- `DateFormat` (`date_format.dfy`): the `formatDate` template helper, and the
  `postDate` a new post gets from `toISOString().slice(0, 10)`. Both are proved
  against a parser that reads a `Y-MM-DD` date back.
- `BlogView` (`blog_view.dfy`): `GET /blog` and `GET /blog/:id`. Each handler
  fills a `ViewData` object (a class) one property at a time, then renders.
- `Routes` (`routes.dfy`): the `GET /posts` filter precedence, the
  `POST /posts/add` workflow (upload, build the `PostRecord` object, guard on
  the title, persist) and the `POST /categories/add` guard.

Each handler also returns the list of data-service calls it made. The
contracts can therefore say which fetch is made and when a post or category is
persisted.

A post's `postDate` is modelled in two ways. A fetched `Post` carries an
integer day key, because the sort comparator only subtracts two dates. The
`PostObject` built by `POST /posts/add` carries the date string that is
stored.

Some behaviours of the code worth stating plainly:

- `viewData.message` is set only when a fetch fails. In `/blog` an empty list
  instead adds the separate top-level message ("Please try another post /
  category").
- `GET /posts` renders "No Results" for an empty result and "no results" for
  a failure. The model keeps the two strings apart.
- The category filter of `GET /posts` calls `getPublishedPostsByCategory`. The
  other two filters call `getPostsByMinDate` and `getAllPosts`, whose names
  carry no published filter.
- `server.js` mounts no middleware that parses a urlencoded or JSON body; only
  `POST /posts/add` runs multer. So `req.body` is undefined in
  `POST /categories/add`, and reading `req.body.category` at line 274 throws
  before the guard at line 276 is reached. Express then answers with its
  default error page. `AddCategoryRoute` takes `req.body` as an input that may
  be absent. It models both the throw and, for a parsed body, the guard
  `category != ""`, which an absent `category` field passes.
- In `POST /posts/add`, a failed `addPost` is a rejection that nothing
  handles. The promise at line 194 is neither returned nor given a `catch`,
  so the `catch` at line 199 never sees it. The model returns `Unhandled` for
  it, an outcome distinct from the `NoResponse` of a falsy title.

`GET /posts`, `POST /posts/add` and `POST /categories/add` call `getAllPosts`,
`getPostsByMinDate`, `getPublishedPostsByCategory`, `addPost` and
`addCategory` as bare names. `server.js` never binds these names; it only binds
`blogData`. The model assumes they are the data service's functions of the
same names. `blog-service` is not part of this model, so whether the names
resolve at run time cannot be decided from this code.

## Model

| member | source | states |
|---|---|---|
| DateSort.SortByDateDesc | server.js:90 | The array after the in-place sort is exactly `SortDesc` of the array before it. |
| DateSort.InsertInPlace | server.js:90 | One insertion step moves `a[i]` behind every post of the sorted prefix dated on or after it. The rest of the array is unchanged. |
| DateSort.SortDesc | server.js:90 | The sorted list has as many posts as the fetched one. Its order, content and stability are stated by `SortDescSorted`, `SortDescPermutation` and `SortDescStable`. |
| DateSort.InsertLast | server.js:90 | One insertion adds exactly one post. `InsertLastPermutation` and `InsertLastWithDate` state which post it adds and where. |
| DateSort.SortDescSorted | server.js:90 | The sorted list is newest first: no post is followed by a strictly newer one. |
| DateSort.SortDescPermutation | server.js:90 | The sorted list has the same posts as the fetched list, with the same multiplicities. |
| DateSort.SortDescStable | server.js:90 | For every date, the posts with that date appear in the same order as they were fetched. |
| DateSort.StableSortUnique | server.js:90 | Any newest-first order that keeps each date's posts in fetch order equals `SortDesc`. So the comparator together with a stable sort fixes the result completely. |
| DateSort.SortedByDateUnique | server.js:237 | Two newest-first orders that list every date's posts in the same order are equal. |
| DateSort.FeaturedPostIsNewest | server.js:90-94 | For a non-empty fetch, the head of the sorted list is one of the fetched posts. No fetched post is newer. Among the posts with the newest date, it is the one fetched first. |
| DateSort.InsertLastPermutation | server.js:90 | Inserting one post adds exactly that post. |
| DateSort.InsertLastWithDate | server.js:90 | Inserting a post appends it to the posts that share its date. The posts of every other date stay the same. |
| DateFormat.NatToString | server.js:45-46 | `toString` of a non-negative integer is a non-empty string of digits with no leading zero. |
| DateFormat.NatToStringValue | server.js:45-46 | The digits that `toString` writes read back as the number. |
| DateFormat.PadStart | server.js:47 | `padStart` returns a string of the requested width, or the string itself, unchanged, when it is already at least that long. |
| DateFormat.PadStartShape | server.js:47 | Everything `padStart` puts in front is `'0'`, and the padded string ends with the original string. |
| DateFormat.IntToString | server.js:44-47 | `toString` of an integer starts with a minus sign exactly when the integer is negative, and the rest is digits. |
| DateFormat.IntToStringRoundTrip | server.js:44-47 | The text `toString` writes for any integer reads back as that integer. |
| DateFormat.FormatDate | server.js:43-48 | The `formatDate` text starts with the year exactly as `toString` writes it, unpadded, followed by a dash. |
| DateFormat.IsoYear | server.js:187 | `toISOString` writes years 0 to 9999 as four digits that read back as the year. Other years get a sign (`-` or `+`) followed by at least six characters. |
| DateFormat.IsoDate | server.js:187 | The date part of `toISOString` always has at least ten characters, so the slice at line 187 takes only date characters. |
| DateFormat.StoredPostDate | server.js:187 | The stored `postDate` always has exactly ten characters. |
| DateFormat.FormatDateRoundTrip | server.js:43-48 | For any valid date, `formatDate` produces text that parses back to the same year, zero-based month and day. This holds for negative years and years with more than four digits too. |
| DateFormat.StoredPostDateRoundTrip | server.js:187 | For years 0 to 9999, the stored `postDate` is an ISO 8601 calendar date (`YYYY-MM-DD`) that parses back to the date the post was created. |
| DateFormat.FormatDateMatchesStored | server.js:43-48 | For years 0 to 9999, `formatDate` text equals the stored `postDate` exactly when the year has four digits, because only month and day are padded. |
| BlogView.BlogPostsQuery | server.js:84-88 | The blog pages fetch by category exactly when the `category` query is truthy, using that category. Otherwise they fetch all published posts. |
| BlogView.FetchSorted | server.js:84-90 | A successful fetch comes back sorted by `SortDesc`. A rejected fetch is passed on unchanged. |
| BlogView.ViewData.constructor | server.js:78 | `viewData` starts with every property absent. |
| BlogView.Blog | server.js:76-115 | Calls the query's fetch, then the categories fetch. On success, `posts` is the sorted list, `post` is its head (absent for an empty list) and `message` is unset. On failure, `posts` and `post` are unset and `message` is "no results", and the code as written throws. The categories outcome sets only `categories` or only `categoriesMessage`. The extra message appears exactly when there is nothing to show. |
| BlogView.BlogById | server.js:223-258 | Calls the query's fetch, the by-id fetch and the categories fetch. `posts` is the sorted list exactly when its fetch succeeds. `post` comes only from the by-id fetch. `message` is "no results" exactly when either post fetch fails. The categories outcome is isolated as in `/blog`. Always renders. |
| BlogView.RenderBlogAsWritten | server.js:107-114 | Throws exactly when `posts` was never set. Otherwise renders `viewData`, with the extra message when the list is empty and no top-level message when it is not. |
| BlogView.RenderBlog | server.js:107-114 | Always renders `viewData`. The top-level message is the extra message when the list is missing or empty, and absent otherwise. It agrees with the code as written wherever that does not throw. |
| Routes.PostsFilter | server.js:120-146 | The category filter applies exactly when `category` is truthy. The minimum-date filter applies exactly when `category` is falsy and `minDate` is truthy. All posts are listed exactly when both are falsy. |
| Routes.PostsListing | server.js:117-156 | Makes exactly the one fetch `PostsFilter` chooses. Lists the fetched posts exactly when the fetch succeeds with at least one post. Shows "No Results" exactly when it succeeds empty, and "no results" exactly when it fails. |
| Routes.PostRecord.constructor | server.js:182 | `postObject` starts with every property absent. |
| Routes.AddPostRoute | server.js:179-201 | A failed upload sends the error and persists nothing. A successful upload persists one post exactly when the title is truthy. That post copies body, title, category and published from the form, takes `featureImage` from the upload's URL and `postDate` from the clock. The client is redirected to `/posts` exactly when persisting succeeds. A failed `addPost` ends as an unhandled rejection carrying its error. Nothing is sent exactly when the upload succeeds and the title is falsy. |
| Routes.AddCategoryRoute | server.js:272-285 | Throws exactly when `req.body` is absent, before any call is made. With a parsed body, calls `addCategory` with the form's category exactly when that category is not the empty string. Redirects to `/categories` exactly when the call succeeds; otherwise nothing is sent. |
| Routes.CategoryAddAlwaysThrows | server.js:272-276 | With no body parser mounted, `req.body` is absent, so every request throws and no category is added. |

## Findings

| source | as written | input that shows it | evidently intended | confidence | as-written member | corrected member |
|---|---|---|---|---|---|---|
| server.js:274 | `req.body.category` is read, but no body-parsing middleware is mounted for this route, so `req.body` is undefined | any `POST /categories/add` request | parse the urlencoded form (for example with `express.urlencoded`), then guard on `category != ""` | high (not executed) | Routes.CategoryAddAlwaysThrows | Routes.AddCategoryRoute |
| server.js:107 | `/blog` reads `viewData.posts.length`, but `posts` is set only when the post fetch succeeds | the published-posts fetch (or the by-category fetch) rejects | render the `blog` page with the "no results" data and the "Please try another post / category" message | high (not executed) | BlogView.RenderBlogAsWritten | BlogView.RenderBlog |

`Blog` renders with `RenderBlog`. Its contract also states that, for the same
`viewData`, the code as written throws whenever the post fetch fails.

## Left out

- Express setup, static files, the `/` and `/about` routes, the 404 fallback and `initialize`/`listen` (server.js:10-12, 53-55, 68-74, 307-317) are I/O plumbing with no decisions in them.
- The Cloudinary configuration, `multer`, the `streamifier` stream and the promise wrapper (server.js:14-21, 159-176) are network I/O. Only the one settled outcome of the upload is modelled. A request without a file rejects inside the wrapper, so the model receives it as a failed upload.
- The `activeRoute` middleware (server.js:57-66) is left out. It depends on JavaScript's `isNaN` coercion of strings, and its regular expression at line 62 can never match, because `(?!.*)` always fails.
- The template helpers `navLink`, `equal` and `safeHTML` (server.js:26-42) are left out. They build HTML text, use loose `==` equality, or call the external `strip-js` module.
- `GET /post/:value`, `GET /posts/add`, `GET /categories` and the two delete routes (server.js:203-221, 260-270, 287-305) only forward a call's result, render a list or log an error. They are not modelled.
- The data service's own behaviour is not modelled. Its outcomes are inputs, and `Repo` places no constraints on them.
- The handlers' awaits are modelled as calls that run one after another. Promise timing is not modelled.
- The sort assumes every `postDate` is a valid date, represented as an integer day key. Invalid dates, for which the comparator returns `NaN`, are not modelled.
- `DateFormat.FormatDate` and `DateFormat.StoredPostDate` take calendar fields as inputs. `getFullYear` reads local time and `toISOString` reads UTC, so the time-zone shift between them is not modelled. Dates outside the range `Date` supports, where `toISOString` throws, are not modelled either.
- `DateFormat.StoredPostDateRoundTrip` and `DateFormat.FormatDateMatchesStored` are stated only for the years 0 to 9999. Outside that range `toISOString` writes a signed six-digit year, and the ten-character slice then cuts off the day.
- `Routes.AddPostRoute`: the handler also writes `featureImage` back into `req.body` (server.js:181). That request object is not modelled.
- Query and form fields are modelled as strings or `undefined`. The arrays and objects that Express's query parser can also produce are not modelled.
