# A Dafny model of the wiki server's article store and routing

`wiki/server.js` is a small Express application that keeps wiki articles in
an in-memory dictionary and serves them over HTTP. This project models,
in Dafny, two parts of it:

- **The article store and its handlers.** The dictionary `articles` (id to
  `{id, title, content}`), seeded with the articles `wiki` and
  `instructions`, is the field of the class `Server.Wiki`. The three
  handlers that change it are methods: create, update and delete. The three
  that only read it are functions: index, show and edit, plus the
  new-article form. Every handler yields one directive: `Render(view, vars)`
  or `Redirect(location)`. The new id is derived from the title with
  `title.split(' ')[0]`. The model expresses this with `Strings.Split`, a
  model of JavaScript's `String.prototype.split` for a one-character
  separator. `Articles.DeriveId` then states the result exactly: the part of
  the title before its first space, or the whole title when it has no space.
- **Route dispatch by registration order.** `Routes.ROUTES` lists the eleven
  `app.get` / `app.post` registrations in source order. Each entry is a verb,
  a path pattern and a handler tag. A pattern is the registered path split
  on `/`, made of literal segments and `:name` wildcards. A wildcard
  accepts exactly one non-empty segment. `Routes.Select` picks the first
  route that accepts the request and returns the parameters that route
  captures. `Routes.Dispatch` applies `Select` to the request path split on
  `/`. The lemmas pin the table down:
  - `GET /articles/new` reaches the form even though the show route also
    accepts that path;
  - `GET /articles/x/edit` never reaches show;
  - `POST /articles/x/delete` never reaches update;
  - show is reached exactly on `/articles/x`, where x is one segment other
    than `new`.

`Server.Wiki.Serve` joins the two parts. It dispatches one request and runs
the chosen handler. Its contract gives the reply and the new store for each
handler tag.

The lemma `Server.CreateRedirectTarget` follows where the redirect after a
create leads. An empty title, or one that starts with a space, gives the id
`""`. The redirect then goes to `/articles/`, which no route serves. A title
whose first word is `new` stores an article that `GET /articles/new` never
shows, because the form route is registered first. `Server.ArticleLifecycle`
is a contract-free client proof on a fresh server. It creates an article,
updates it under its id with a differently worded title, and deletes it
twice. The record stays under the id derived at creation. The second
delete changes nothing.

Details of `wiki/server.js` that the model keeps:
- The id is cut at the first space character `' '` only; a tab or any other
  whitespace stays in the id.
- `wiki/server.js` has no user store, session or logout. Its four
  authentication handlers, `GET /login`, `POST /login`, `GET /register` and
  `POST /users`, have empty bodies. They are the `AuthStub` routes, and
  their reply is `Unanswered`.
- A show or edit for a missing id renders the view with no article
  (`None`). It is not an error and not a 404.

Files: `strings.dfy` (module `Strings`), `articles.dfy` (`Articles`),
`routes.dfy` (`Routes`), `server.dfy` (`Server`).

## Model

| member | source | states |
|---|---|---|
| `Strings.Split` | wiki/server.js:120 | `split(' ')` with a one-character separator: at least one piece, no piece holds the separator, the first piece is a prefix of the input that ends at the first separator or at the end, and an input without the separator is its own single piece |
| `Strings.JoinSplit` | wiki/server.js:120 | joining the pieces of a split with the separator gives back the input |
| `Strings.SplitJoin` | wiki/server.js:120 | splitting undoes joining, for a non-empty list of pieces without the separator |
| `Articles.Seed` | wiki/server.js:36-47 | the initial store holds exactly the keys `wiki` and `instructions`, and each record is stored under its own id |
| `Articles.DeriveId` | wiki/server.js:118-120 | the new id is a prefix of the title, contains no space, is followed in the title by a space unless it is the whole title, and is the whole title when the title has no space |
| `Articles.DeriveIdUnique` | wiki/server.js:120 | any space-free prefix of the title that is followed by a space or ends the title is the derived id (the characterisation is exact) |
| `Articles.DeriveIdExamples` | wiki/server.js:118-120 | "Test Article" gives "Test"; an empty title and a title starting with a space give "" |
| `Routes.ROUTES` | wiki/server.js:57-173 | the eleven registrations in source order, each with its verb, the segments of its path and its handler |
| `Routes.Match` | wiki/server.js:77-84 | a pattern matches exactly when it has as many segments as the path and each literal equals its segment and each wildcard's segment is non-empty; the captured names are exactly the pattern's wildcards |
| `Routes.MatchCaptures` | wiki/server.js:77-84 | every captured name is bound to the request's segment at a position of a wildcard of that name |
| `Routes.FirstMatch` | wiki/server.js:68-72 | the selected route accepts the request and captures the returned parameters, and no route before it accepts the request; None only when no route from the start position accepts it |
| `Routes.Select` | wiki/server.js:57-173 | dispatch over the registered table: None exactly when no route accepts the request; otherwise the handler and parameters of the first registered route that accepts it |
| `Routes.Dispatch` | wiki/server.js:57-173 | a request by verb and path string: None exactly when no route accepts the path's segments; otherwise the handler and captured parameters of a route that accepts them and has no accepting route registered before it |
| `Routes.SelectPicks` | wiki/server.js:68-72 | whenever route i is the first that accepts a request, the request goes to route i, even if later routes would also accept it |
| `Routes.IndexRoute` | wiki/server.js:57 | `GET /` reaches the index handler with no parameters |
| `Routes.NewFormBeforeShow` | wiki/server.js:68-84 | the show route accepts `GET /articles/new` too, yet the request reaches the new-article form, which is registered first |
| `Routes.ShowRoute` | wiki/server.js:77-86 | `GET /articles/x`, for any single non-empty segment x other than `new`, reaches show with `id = x` |
| `Routes.ShowWiki` | wiki/server.js:81-86 | `GET /articles/wiki` reaches show with `id = "wiki"` |
| `Routes.EditRoute` | wiki/server.js:84-101 | `GET /articles/x/edit` is not accepted by the show route and reaches edit with `id = x` |
| `Routes.CreateRoute` | wiki/server.js:117 | `POST /articles` (no id) reaches create with no parameters |
| `Routes.UpdateRoute` | wiki/server.js:137 | `POST /articles/x` reaches update with `id = x`, including x = `new` |
| `Routes.DeleteRoute` | wiki/server.js:137-152 | `POST /articles/x/delete` is not accepted by the update route and reaches delete with `id = x` |
| `Routes.StubRoute` | wiki/server.js:163-173 | `GET /login`, `POST /login`, `GET /register` and `POST /users` reach the empty authentication handlers |
| `Routes.EmptyIdUnrouted` | wiki/server.js:84 | `/articles/` with an empty id is accepted by no route, for GET and for POST; the POST half holds under the model's exact matching, while Express's optional trailing slash would send `POST /articles/` to create |
| `Routes.DispatchParams` | wiki/server.js:84-152 | the show, edit, update and delete handlers always receive exactly the parameter `id`, a non-empty segment without `/`; every other handler receives no parameters |
| `Routes.ShowOnlyFor` | wiki/server.js:68-86 | a GET request reaches show only when its path is `/articles/` followed by the captured id, and that id is non-empty, has no `/` and is not `new` |
| `Articles.Lookup` | wiki/server.js:91 | the article is present exactly when the id is a key of the store, and is then the record stored under it |
| `Server.Wiki.constructor` | wiki/server.js:36-47 | the server starts with the seed store, whose keys match their records' ids |
| `Server.Wiki.Index` | wiki/server.js:57-66 | renders `index` with the whole store as `articles`; reading leaves the store as it was |
| `Server.Wiki.NewForm` | wiki/server.js:73-75 | renders `new` with no variables |
| `Server.Wiki.Show` | wiki/server.js:84-96 | renders `show`; the article is present exactly when the id is a key and is then the stored record, whose own id, under the key-id invariant, is the requested one; a missing id gives no article rather than an error |
| `Server.Wiki.Edit` | wiki/server.js:99-112 | renders `edit` with the same lookup as show |
| `Server.Wiki.Create` | wiki/server.js:117-134 | the store gains or overwrites the entry at the derived id with `{id, title, content}` from the form; every other key keeps its record; redirects to `/articles/` + id; the key-id invariant is preserved |
| `Server.Wiki.Update` | wiki/server.js:137-147 | the entry at the URL id becomes `{id, title, content}`, whether or not it existed, and the id is not derived again from the new title; every other key keeps its record; redirects to `/articles/` + id; the invariant is preserved |
| `Server.Wiki.Delete` | wiki/server.js:150-156 | the id is no longer a key; deleting an absent id leaves the store unchanged, so a second delete equals the first; every other key keeps its record; redirects to `/`; the invariant is preserved |
| `Server.Wiki.Serve` | wiki/server.js:57-173 | an unrouted request changes nothing and has no reply; otherwise the reply and new store are those of the first matching route's handler; the stubs leave the request unanswered; the key-id invariant is preserved |
| `Server.CreateRedirectTarget` | wiki/server.js:120-133 | the redirect after a create reaches show for the new id when the id is one segment other than `new`, `.` and `..` and holds no `?`, `#` or `%`, reaches the new-article form when the id is `new`, and reaches no route when the id is empty |

## Left out

- Express itself, body-parser, the static file middleware (`public/`) and EJS rendering are library code that is not part of this model. A render is the opaque value `Render(view, vars)` and a redirect is `Redirect(location)`. Static files would be served before any route; the model has no static files.
- `process.env.PORT` and `app.listen` are environment and network I/O. They are not modelled.
- Express's matching leniencies are not modelled: case-insensitive paths, an optional trailing slash, URL decoding of parameters, HEAD served by GET routes, and stripping of the query string. The model's path is the exact pathname, matched segment by segment. Express's default 404 for an unmatched request is the reply `NoRoute`.
- The route table lists each registered path already split into segments, with the source path beside it as a comment. The library's parsing of the path string into a pattern is not modelled; the table is the parsed form.
- The four authentication handlers have empty bodies and never respond. They are the `AuthStub` tag with reply `Unanswered`. `wiki/server.js` has no user store, password check or session.
- The JavaScript object's prototype is not modelled. In the source, looking up an id such as `toString` finds an inherited property, and assigning to `__proto__` does not create a key. The model's `Store` is a plain map.
- Missing form fields are not modelled. The form is two strings. In the source, a body without `title` makes create throw because `undefined.split` fails, and makes update store `undefined`.
- `Routes.MatchCaptures`: `Routes.Match` lets a later wildcard of the same name win, but the lemma states only that each captured value is the segment at one of that name's positions. No registered pattern repeats a name.
- `Server.CreateRedirectTarget`: the browser's resolution of the `Location` header is not modelled: a query after `?`, a fragment after `#`, percent-decoding of `%XX` and the dot segments `.` and `..`. The show case is claimed only for ids free of those.
