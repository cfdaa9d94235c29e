/** Route dispatch: the ordered table of `app.get` / `app.post`
    registrations, path patterns built from literal segments and `:name`
    wildcards, and selection of the first registered route that accepts a
    request. */
module Routes {
  import opened Strings
  import opened Articles

  datatype Verb = Get | Post

  /** Which handler a route runs; `AuthStub` stands for the four authentication
      routes whose handlers have an empty body. */
  datatype Handler = Home | NewArticle | ShowArticle | EditArticle | CreateArticle | UpdateArticle | DeleteArticle | AuthStub

  /** One segment of a path pattern: a literal, or a `:name` wildcard. */
  datatype Seg = Lit(text: string) | Param(name: string)

  /** A registered route. The pattern lists the segments of the registered
      path split on '/', so a path rooted at '/' starts with `Lit("")`. */
  datatype Route = Route(verb: Verb, pattern: seq<Seg>, handler: Handler)

  /** The routes in the order the server registers them, each with the path
      it is registered under. */
  const ROUTES: seq<Route> := [
    Route(Get, [Lit(""), Lit("")], Home),                                                // GET  /
    Route(Get, [Lit(""), Lit("articles"), Lit("new")], NewArticle),                      // GET  /articles/new
    Route(Get, [Lit(""), Lit("articles"), Param("id")], ShowArticle),                    // GET  /articles/:id
    Route(Get, [Lit(""), Lit("articles"), Param("id"), Lit("edit")], EditArticle),       // GET  /articles/:id/edit
    Route(Post, [Lit(""), Lit("articles")], CreateArticle),                              // POST /articles
    Route(Post, [Lit(""), Lit("articles"), Param("id")], UpdateArticle),                 // POST /articles/:id
    Route(Post, [Lit(""), Lit("articles"), Param("id"), Lit("delete")], DeleteArticle),  // POST /articles/:id/delete
    Route(Get, [Lit(""), Lit("login")], AuthStub),                                       // GET  /login
    Route(Post, [Lit(""), Lit("login")], AuthStub),                                      // POST /login
    Route(Get, [Lit(""), Lit("register")], AuthStub),                                    // GET  /register
    Route(Post, [Lit(""), Lit("users")], AuthStub)                                       // POST /users
  ]

  /** The segments of a request path, split on '/'. A path that starts with
      '/' has "" as its first segment. */
  function Segments(path: string): seq<string>
  {
    Split(path, '/')
  }

  /** A literal segment accepts exactly itself; a wildcard accepts any
      non-empty segment. */
  predicate SegFits(p: Seg, s: string)
  {
    match p
    case Lit(t) => s == t
    case Param(_) => s != ""
  }

  /** The pattern accepts the segments: same number, each one accepted. */
  predicate Fits(pat: seq<Seg>, segs: seq<string>)
  {
    |pat| == |segs| && forall i :: 0 <= i < |pat| ==> SegFits(pat[i], segs[i])
  }

  /** The names of the pattern's wildcards. */
  function ParamNames(pat: seq<Seg>): set<string>
    decreases |pat|
  {
    if pat == [] then {}
    else (if pat[0].Param? then {pat[0].name} else {}) + ParamNames(pat[1..])
  }

  /** Matching a pattern against request segments: the captured parameters
      when the pattern accepts them, else None. */
  function Match(pat: seq<Seg>, segs: seq<string>): (r: Option<map<string, string>>)
    ensures r.Some? <==> Fits(pat, segs)
    ensures r.Some? ==> r.value.Keys == ParamNames(pat)
    decreases |pat|
  {
    if |pat| != |segs| then None
    else if |pat| == 0 then Some(map[])
    else if !SegFits(pat[0], segs[0]) then None
    else
      match Match(pat[1..], segs[1..])
      case None =>
        assert !Fits(pat[1..], segs[1..]);
        None
      case Some(rest) =>
        Some(if pat[0].Param? then map[pat[0].name := segs[0]] + rest else rest)
  }

  /** The route accepts a request of this verb with these path segments. */
  predicate Accepts(route: Route, verb: Verb, segs: seq<string>)
  {
    route.verb == verb && Fits(route.pattern, segs)
  }

  datatype Selected = Selected(index: nat, params: map<string, string>)

  /** The first route at or after `from` that accepts the request, with the
      parameters it captures. */
  function FirstMatch(routes: seq<Route>, from: nat, verb: Verb, segs: seq<string>): (r: Option<Selected>)
    requires from <= |routes|
    ensures r.Some? ==> from <= r.value.index < |routes|
    ensures r.Some? ==> Accepts(routes[r.value.index], verb, segs)
    ensures r.Some? ==> Match(routes[r.value.index].pattern, segs) == Some(r.value.params)
    ensures forall j :: from <= j < |routes| && (r.Some? ==> j < r.value.index) ==>
      !Accepts(routes[j], verb, segs)
    decreases |routes| - from
  {
    if from == |routes| then None
    else if routes[from].verb == verb && Match(routes[from].pattern, segs).Some? then
      Some(Selected(from, Match(routes[from].pattern, segs).value))
    else
      FirstMatch(routes, from + 1, verb, segs)
  }

  /** Route `i` of the table accepts the request and no route registered
      before it does. */
  predicate FirstAccepting(i: int, verb: Verb, segs: seq<string>)
  {
    0 <= i < |ROUTES| && Accepts(ROUTES[i], verb, segs) &&
    forall j :: 0 <= j < i ==> !Accepts(ROUTES[j], verb, segs)
  }

  datatype Dispatched = Dispatched(handler: Handler, params: map<string, string>)

  /** The handler that serves a request with these path segments, and the
      parameters it captures: those of the first registered route accepting
      the request, or None when no route does. */
  function Select(verb: Verb, segs: seq<string>): (r: Option<Dispatched>)
    ensures r.None? <==> forall i :: 0 <= i < |ROUTES| ==> !Accepts(ROUTES[i], verb, segs)
    ensures r.Some? ==>
      exists i :: FirstAccepting(i, verb, segs) &&
        ROUTES[i].handler == r.value.handler &&
        Match(ROUTES[i].pattern, segs) == Some(r.value.params)
  {
    match FirstMatch(ROUTES, 0, verb, segs)
    case None => None
    case Some(s) => Some(Dispatched(ROUTES[s.index].handler, s.params))
  }

  /** Dispatch of a request by its verb and path: the first registered route
      that accepts the path's segments runs, with the parameters it
      captures; no route runs when none accepts them. */
  function Dispatch(verb: Verb, path: string): (r: Option<Dispatched>)
    ensures r.None? <==> forall i :: 0 <= i < |ROUTES| ==> !Accepts(ROUTES[i], verb, Segments(path))
    ensures r.Some? ==>
      exists i :: FirstAccepting(i, verb, Segments(path)) &&
        ROUTES[i].handler == r.value.handler &&
        Match(ROUTES[i].pattern, Segments(path)) == Some(r.value.params)
  {
    Select(verb, Segments(path))
  }

  // ----- Facts about matching -----

  /** A name is captured by the pattern exactly when a wildcard of that name
      occurs in it. */
  lemma {:induction false} ParamNamesAt(pat: seq<Seg>, n: string)
    ensures n in ParamNames(pat) <==> exists i :: 0 <= i < |pat| && pat[i] == Param(n)
    decreases |pat|
  {
    if pat != [] {
      ParamNamesAt(pat[1..], n);
      if exists i :: 0 <= i < |pat| && pat[i] == Param(n) {
        var i :| 0 <= i < |pat| && pat[i] == Param(n);
        if i > 0 {
          assert pat[1..][i - 1] == Param(n);
        }
      }
      if exists i :: 0 <= i < |pat[1..]| && pat[1..][i] == Param(n) {
        var i :| 0 <= i < |pat[1..]| && pat[1..][i] == Param(n);
        assert pat[i + 1] == Param(n);
      }
    }
  }

  /** Every captured name is bound to the request's segment at a position
      where the pattern has a wildcard of that name (the last such position,
      when a name occurs twice). */
  lemma {:induction false} MatchCaptures(pat: seq<Seg>, segs: seq<string>)
    requires Match(pat, segs).Some?
    ensures forall n :: n in Match(pat, segs).value ==>
      exists i :: 0 <= i < |pat| && pat[i] == Param(n) && segs[i] == Match(pat, segs).value[n]
    decreases |pat|
  {
    if |pat| > 0 {
      var rest := Match(pat[1..], segs[1..]);
      assert rest.Some?;
      MatchCaptures(pat[1..], segs[1..]);
      var m := Match(pat, segs).value;
      forall n | n in m
        ensures exists i :: 0 <= i < |pat| && pat[i] == Param(n) && segs[i] == m[n]
      {
        if n in rest.value {
          var i :| 0 <= i < |pat[1..]| && pat[1..][i] == Param(n) && segs[1..][i] == rest.value[n];
          assert pat[i + 1] == Param(n) && segs[i + 1] == m[n];
        } else {
          assert pat[0] == Param(n) && segs[0] == m[n];
        }
      }
    }
  }

  /** A pattern without wildcards captures nothing. */
  lemma CapturesNothing(pat: seq<Seg>, segs: seq<string>)
    requires Fits(pat, segs)
    requires forall j :: 0 <= j < |pat| ==> pat[j].Lit?
    ensures Match(pat, segs) == Some(map[])
  {
    var m := Match(pat, segs).value;
    forall n | n in m
      ensures false
    {
      ParamNamesAt(pat, n);
    }
  }

  /** A pattern whose one wildcard is `:id` at position `i` captures the
      request's segment `i` under "id", and nothing else. */
  lemma CapturesId(pat: seq<Seg>, segs: seq<string>, i: nat)
    requires Fits(pat, segs) && i < |pat| && pat[i] == Param("id")
    requires forall j :: 0 <= j < |pat| && j != i ==> pat[j].Lit?
    ensures Match(pat, segs) == Some(map["id" := segs[i]])
  {
    var m := Match(pat, segs).value;
    ParamNamesAt(pat, "id");
    forall n | n in m
      ensures n == "id"
    {
      ParamNamesAt(pat, n);
    }
    assert m.Keys == {"id"};
    MatchCaptures(pat, segs);
    var k :| 0 <= k < |pat| && pat[k] == Param("id") && segs[k] == m["id"];
    assert k == i;
    assert m == map["id" := segs[i]];
  }

  /** Selection picks the first accepting route, whatever routes after it
      would also accept. */
  lemma SelectPicks(verb: Verb, segs: seq<string>, i: int)
    requires FirstAccepting(i, verb, segs)
    ensures Select(verb, segs) ==
      Some(Dispatched(ROUTES[i].handler, Match(ROUTES[i].pattern, segs).value))
  {
    var r := Select(verb, segs);
    assert r.Some?;
    var k :| FirstAccepting(k, verb, segs) &&
      ROUTES[k].handler == r.value.handler &&
      Match(ROUTES[k].pattern, segs) == Some(r.value.params);
    if k < i {
      assert !Accepts(ROUTES[k], verb, segs);
    }
  }

  // ----- Request paths -----

  lemma SegmentsRooted(a: string)
    requires '/' !in a
    ensures Segments("/" + a) == ["", a]
  {
    RootedPath(a);
    SplitTwo("", a, '/');
  }

  lemma SegmentsArticle(x: string)
    requires '/' !in x
    ensures Segments("/articles/" + x) == ["", "articles", x]
  {
    ArticlePath(x);
    SplitThree("", "articles", x, '/');
  }

  lemma SegmentsArticleAction(x: string, action: string)
    requires '/' !in x && '/' !in action
    ensures Segments("/articles/" + x + "/" + action) == ["", "articles", x, action]
  {
    ArticleActionPath(x, action);
    SplitFour("", "articles", x, action, '/');
  }

  /** The request paths written as their segments joined by '/'. */
  lemma RootedPath(a: string)
    ensures "" + "/" + a == "/" + a
  {
  }

  lemma ArticlePath(x: string)
    ensures "" + "/" + "articles" + "/" + x == "/articles/" + x
  {
  }

  lemma ArticleActionPath(x: string, action: string)
    ensures "" + "/" + "articles" + "/" + x + "/" + action == "/articles/" + x + "/" + action
  {
  }

  lemma SegmentsEdit(x: string)
    requires '/' !in x
    ensures Segments("/articles/" + x + "/edit") == ["", "articles", x, "edit"]
  {
    SegmentsArticleAction(x, "edit");
    EditPath(x);
  }

  lemma SegmentsDelete(x: string)
    requires '/' !in x
    ensures Segments("/articles/" + x + "/delete") == ["", "articles", x, "delete"]
  {
    SegmentsArticleAction(x, "delete");
    DeletePath(x);
  }

  lemma EditPath(x: string)
    ensures "/articles/" + x + "/" + "edit" == "/articles/" + x + "/edit"
  {
  }

  lemma DeletePath(x: string)
    ensures "/articles/" + x + "/" + "delete" == "/articles/" + x + "/delete"
  {
  }

  // ----- The registered routes -----

  // Each concrete request is proved in three steps: which route is the first
  // to accept the request's segments and what it captures (a lemma named
  // after the route, ending in `First`), the selection that follows from
  // that (`SelectsRoute`), and the split of the request's path into those
  // segments. A segment that is constant in a request (the empty path after
  // "/", "new", "articles") is passed as a parameter fixed by the
  // precondition rather than written inside a path literal, which keeps
  // `Split` from being evaluated on a literal string.

  /** Selection of a route known to be the first that accepts the request. */
  lemma SelectsRoute(verb: Verb, segs: seq<string>, i: int, h: Handler, params: map<string, string>)
    requires FirstAccepting(i, verb, segs) && ROUTES[i].handler == h
    requires Match(ROUTES[i].pattern, segs) == Some(params)
    ensures Select(verb, segs) == Some(Dispatched(h, params))
  {
    SelectPicks(verb, segs, i);
  }

  /** GET / renders the index; `rest` is the empty path after "/". */
  lemma IndexRoute(rest: string)
    requires rest == ""
    ensures Dispatch(Get, "/" + rest) == Some(Dispatched(Home, map[]))
  {
    var segs := Segments("/" + rest);
    SegmentsRooted(rest);
    IndexFirst(segs);
    SelectsRoute(Get, segs, 0, Home, map[]);
  }

  lemma IndexFirst(segs: seq<string>)
    requires segs == ["", ""]
    ensures FirstAccepting(0, Get, segs) && Match(ROUTES[0].pattern, segs) == Some(map[])
  {
    CapturesNothing(ROUTES[0].pattern, segs);
  }

  /** GET /articles/new (`x` is "new") reaches the new-article form although
      the show route accepts the same path: the form is registered first. */
  lemma NewFormBeforeShow(x: string)
    requires x == "new"
    ensures Accepts(ROUTES[2], Get, Segments("/articles/" + x))
    ensures Dispatch(Get, "/articles/" + x) == Some(Dispatched(NewArticle, map[]))
  {
    var segs := Segments("/articles/" + x);
    SegmentsArticle(x);
    NewFormFirst(x, segs);
    SelectsRoute(Get, segs, 1, NewArticle, map[]);
  }

  lemma NewFormFirst(x: string, segs: seq<string>)
    requires x == "new" && segs == ["", "articles", x]
    ensures Accepts(ROUTES[2], Get, segs)
    ensures FirstAccepting(1, Get, segs) && Match(ROUTES[1].pattern, segs) == Some(map[])
  {
    assert !Accepts(ROUTES[0], Get, segs);
    CapturesNothing(ROUTES[1].pattern, segs);
  }

  /** GET /articles/x, for any one segment x other than "new", shows x. */
  lemma ShowRoute(x: string)
    requires x != "" && '/' !in x && x != "new"
    ensures Dispatch(Get, "/articles/" + x) == Some(Dispatched(ShowArticle, map["id" := x]))
  {
    var segs := Segments("/articles/" + x);
    SegmentsArticle(x);
    ShowFirst(x, segs);
    SelectsRoute(Get, segs, 2, ShowArticle, map["id" := x]);
  }

  lemma ShowFirst(x: string, segs: seq<string>)
    requires x != "" && x != "new" && segs == ["", "articles", x]
    ensures FirstAccepting(2, Get, segs) && Match(ROUTES[2].pattern, segs) == Some(map["id" := x])
  {
    assert !Accepts(ROUTES[0], Get, segs);
    assert !SegFits(ROUTES[1].pattern[2], segs[2]);
    CapturesId(ROUTES[2].pattern, segs, 2);
  }

  /** GET /articles/wiki (`x` is "wiki") shows the seeded article "wiki". */
  lemma ShowWiki(x: string)
    requires x == "wiki"
    ensures Dispatch(Get, "/articles/" + x) == Some(Dispatched(ShowArticle, map["id" := "wiki"]))
  {
    ShowRoute(x);
  }

  /** GET /articles/x/edit reaches the edit form, never show: the wildcard
      of the show route does not span two segments. */
  lemma EditRoute(x: string)
    requires x != "" && '/' !in x
    ensures !Accepts(ROUTES[2], Get, Segments("/articles/" + x + "/edit"))
    ensures Dispatch(Get, "/articles/" + x + "/edit") == Some(Dispatched(EditArticle, map["id" := x]))
  {
    var segs := Segments("/articles/" + x + "/edit");
    SegmentsEdit(x);
    EditFirst(x, segs);
    SelectsRoute(Get, segs, 3, EditArticle, map["id" := x]);
  }

  lemma EditFirst(x: string, segs: seq<string>)
    requires x != "" && segs == ["", "articles", x, "edit"]
    ensures !Accepts(ROUTES[2], Get, segs)
    ensures FirstAccepting(3, Get, segs) && Match(ROUTES[3].pattern, segs) == Some(map["id" := x])
  {
    assert !Accepts(ROUTES[0], Get, segs);
    assert !Accepts(ROUTES[1], Get, segs);
    assert !Accepts(ROUTES[2], Get, segs);
    CapturesId(ROUTES[3].pattern, segs, 2);
  }

  /** POST /articles (`rest` is "articles"), with no id, creates. */
  lemma CreateRoute(rest: string)
    requires rest == "articles"
    ensures Dispatch(Post, "/" + rest) == Some(Dispatched(CreateArticle, map[]))
  {
    var segs := Segments("/" + rest);
    SegmentsRooted(rest);
    CreateFirst(rest, segs);
    SelectsRoute(Post, segs, 4, CreateArticle, map[]);
  }

  lemma CreateFirst(rest: string, segs: seq<string>)
    requires rest == "articles" && segs == ["", rest]
    ensures FirstAccepting(4, Post, segs) && Match(ROUTES[4].pattern, segs) == Some(map[])
  {
    assert forall j :: 0 <= j < 4 ==> ROUTES[j].verb == Get;
    CapturesNothing(ROUTES[4].pattern, segs);
  }

  /** POST /articles/x updates x; "new" is an id like any other here. */
  lemma UpdateRoute(x: string)
    requires x != "" && '/' !in x
    ensures Dispatch(Post, "/articles/" + x) == Some(Dispatched(UpdateArticle, map["id" := x]))
  {
    var segs := Segments("/articles/" + x);
    SegmentsArticle(x);
    UpdateFirst(x, segs);
    SelectsRoute(Post, segs, 5, UpdateArticle, map["id" := x]);
  }

  lemma UpdateFirst(x: string, segs: seq<string>)
    requires x != "" && segs == ["", "articles", x]
    ensures FirstAccepting(5, Post, segs) && Match(ROUTES[5].pattern, segs) == Some(map["id" := x])
  {
    assert forall j :: 0 <= j < 4 ==> ROUTES[j].verb == Get;
    assert !Accepts(ROUTES[4], Post, segs);
    CapturesId(ROUTES[5].pattern, segs, 2);
  }

  /** POST /articles/x/delete deletes x, never updates it. */
  lemma DeleteRoute(x: string)
    requires x != "" && '/' !in x
    ensures !Accepts(ROUTES[5], Post, Segments("/articles/" + x + "/delete"))
    ensures Dispatch(Post, "/articles/" + x + "/delete") == Some(Dispatched(DeleteArticle, map["id" := x]))
  {
    var segs := Segments("/articles/" + x + "/delete");
    SegmentsDelete(x);
    DeleteFirst(x, segs);
    SelectsRoute(Post, segs, 6, DeleteArticle, map["id" := x]);
  }

  lemma DeleteFirst(x: string, segs: seq<string>)
    requires x != "" && segs == ["", "articles", x, "delete"]
    ensures !Accepts(ROUTES[5], Post, segs)
    ensures FirstAccepting(6, Post, segs) && Match(ROUTES[6].pattern, segs) == Some(map["id" := x])
  {
    assert forall j :: 0 <= j < 4 ==> ROUTES[j].verb == Get;
    assert !Accepts(ROUTES[4], Post, segs);
    assert !Accepts(ROUTES[5], Post, segs);
    CapturesId(ROUTES[6].pattern, segs, 2);
  }

  /** The four authentication stubs are reached by their own paths; the
      precondition fixes `verb` and `name` to one of the four registrations
      (`GET /login`, `POST /login`, `GET /register`, `POST /users`). */
  lemma StubRoute(verb: Verb, name: string)
    requires (verb == Get && name == "login") || (verb == Post && name == "login") ||
             (verb == Get && name == "register") || (verb == Post && name == "users")
    ensures Dispatch(verb, "/" + name) == Some(Dispatched(AuthStub, map[]))
  {
    var segs := Segments("/" + name);
    SegmentsRooted(name);
    var i := StubFirst(verb, name, segs);
    SelectsRoute(verb, segs, i, AuthStub, map[]);
  }

  lemma StubFirst(verb: Verb, name: string, segs: seq<string>) returns (i: int)
    requires (verb == Get && name == "login") || (verb == Post && name == "login") ||
             (verb == Get && name == "register") || (verb == Post && name == "users")
    requires segs == ["", name]
    ensures FirstAccepting(i, verb, segs) && ROUTES[i].handler == AuthStub
    ensures Match(ROUTES[i].pattern, segs) == Some(map[])
  {
    i := StubIndex(verb, name, segs);
    CapturesNothing(ROUTES[i].pattern, segs);
  }

  lemma StubIndex(verb: Verb, name: string, segs: seq<string>) returns (i: int)
    requires (verb == Get && name == "login") || (verb == Post && name == "login") ||
             (verb == Get && name == "register") || (verb == Post && name == "users")
    requires segs == ["", name]
    ensures FirstAccepting(i, verb, segs) && ROUTES[i].handler == AuthStub
    ensures forall j :: 0 <= j < |ROUTES[i].pattern| ==> ROUTES[i].pattern[j].Lit?
  {
    i := if verb == Get && name == "login" then 7
      else if verb == Post && name == "login" then 8
      else if name == "register" then 9 else 10;
    assert forall j :: 0 <= j < i ==>
      ROUTES[j].verb != verb || |ROUTES[j].pattern| != 2 || ROUTES[j].pattern[1] != Lit(name);
  }

  /** `/articles/` with an empty id (`x` is "") is served by no route, for
      either verb. For POST this rests on exact matching: the create route
      `POST /articles` has two segments, and the path here has three. */
  lemma EmptyIdUnrouted(x: string)
    requires x == ""
    ensures Dispatch(Get, "/articles/" + x) == None
    ensures Dispatch(Post, "/articles/" + x) == None
  {
    SegmentsArticle(x);
    EmptyIdRejected(x, Segments("/articles/" + x));
  }

  lemma EmptyIdRejected(x: string, segs: seq<string>)
    requires x == "" && segs == ["", "articles", x]
    ensures forall j :: 0 <= j < |ROUTES| ==> !Accepts(ROUTES[j], Get, segs) && !Accepts(ROUTES[j], Post, segs)
  {
    assert forall j :: 0 <= j < |ROUTES| ==>
      |ROUTES[j].pattern| != 3 || ROUTES[j].pattern[2] == Lit("new") || ROUTES[j].pattern[2].Param?;
  }

  /** The handlers whose route has the `:id` wildcard. */
  predicate TakesId(h: Handler)
  {
    h == ShowArticle || h == EditArticle || h == UpdateArticle || h == DeleteArticle
  }

  /** What the handler of a dispatched request is given: the routes with a
      `:id` wildcard capture exactly "id", a single non-empty segment; the
      others capture nothing. */
  lemma DispatchParams(verb: Verb, path: string)
    ensures Dispatch(verb, path).Some? ==>
      var d := Dispatch(verb, path).value;
      if TakesId(d.handler) then
        d.params.Keys == {"id"} && d.params["id"] != "" && '/' !in d.params["id"]
      else
        d.params == map[]
  {
    if Dispatch(verb, path).Some? {
      SelectParams(verb, Segments(path));
    }
  }

  lemma SelectParams(verb: Verb, segs: seq<string>)
    requires Select(verb, segs).Some?
    ensures var d := Select(verb, segs).value;
      if TakesId(d.handler) then
        |segs| > 2 && d.params == map["id" := segs[2]] && segs[2] != ""
      else
        d.params == map[]
  {
    var d := Select(verb, segs).value;
    var i :| FirstAccepting(i, verb, segs) &&
      ROUTES[i].handler == d.handler &&
      Match(ROUTES[i].pattern, segs) == Some(d.params);
    ParamsOf(i, segs);
  }

  /** The shape of each registered pattern: the `:id` routes have their one
      wildcard in third place, the others have none. */
  lemma PatternShape(i: int)
    requires 0 <= i < |ROUTES|
    ensures var pat := ROUTES[i].pattern;
      if TakesId(ROUTES[i].handler) then
        |pat| > 2 && pat[2] == Param("id") && forall j :: 0 <= j < |pat| && j != 2 ==> pat[j].Lit?
      else
        forall j :: 0 <= j < |pat| ==> pat[j].Lit?
  {
  }

  lemma ParamsOf(i: int, segs: seq<string>)
    requires 0 <= i < |ROUTES| && Fits(ROUTES[i].pattern, segs)
    ensures TakesId(ROUTES[i].handler) ==>
      |segs| > 2 && Match(ROUTES[i].pattern, segs) == Some(map["id" := segs[2]]) && segs[2] != ""
    ensures !TakesId(ROUTES[i].handler) ==> Match(ROUTES[i].pattern, segs) == Some(map[])
  {
    var pat := ROUTES[i].pattern;
    PatternShape(i);
    if TakesId(ROUTES[i].handler) {
      CapturesId(pat, segs, 2);
    } else {
      CapturesNothing(pat, segs);
    }
  }

  /** Conversely, a GET request reaches show only on a path `/articles/x`
      where x is one non-empty segment other than "new". */
  lemma ShowOnlyFor(path: string)
    ensures Dispatch(Get, path).Some? && Dispatch(Get, path).value.handler == ShowArticle ==>
      var d := Dispatch(Get, path).value;
      "id" in d.params &&
      path == "/articles/" + d.params["id"] &&
      d.params["id"] != "" && d.params["id"] != "new" && '/' !in d.params["id"]
  {
    if Dispatch(Get, path).Some? && Dispatch(Get, path).value.handler == ShowArticle {
      var segs := Segments(path);
      ShowSegments(segs);
      JoinSplit(path, '/');
      JoinArticle(segs[2]);
    }
  }

  lemma ShowSegments(segs: seq<string>)
    requires Select(Get, segs).Some? && Select(Get, segs).value.handler == ShowArticle
    ensures var d := Select(Get, segs).value;
      "id" in d.params && segs == ["", "articles", d.params["id"]] &&
      d.params["id"] != "" && d.params["id"] != "new"
  {
    var d := Select(Get, segs).value;
    var i :| FirstAccepting(i, Get, segs) &&
      ROUTES[i].handler == d.handler &&
      Match(ROUTES[i].pattern, segs) == Some(d.params);
    OnlyShowAt(i);
    ShowAt(segs);
  }

  /** The segments the show route accepts when it is the first to accept. */
  lemma ShowAt(segs: seq<string>)
    requires FirstAccepting(2, Get, segs)
    ensures |segs| == 3 && segs == ["", "articles", segs[2]]
    ensures segs[2] != "" && segs[2] != "new"
    ensures Match(ROUTES[2].pattern, segs) == Some(map["id" := segs[2]])
  {
    ArticleSegments(segs);
    ParamsOf(2, segs);
    ShowNotNew(segs);
  }

  lemma OnlyShowAt(i: int)
    requires 0 <= i < |ROUTES| && ROUTES[i].handler == ShowArticle
    ensures i == 2
  {
  }

  lemma ArticleSegments(segs: seq<string>)
    requires Fits(ROUTES[2].pattern, segs)
    ensures segs == ["", "articles", segs[2]]
  {
  }

  lemma ShowNotNew(segs: seq<string>)
    requires FirstAccepting(2, Get, segs)
    ensures segs[2] != "new"
  {
    assert !Accepts(ROUTES[1], Get, segs);
  }

  lemma JoinArticle(x: string)
    ensures Join(["", "articles", x], '/') == "/articles/" + x
  {
    JoinThree("", "articles", x, '/');
    assert "" + "/" + "articles" + "/" + x == "/articles/" + x;
  }

  lemma JoinThree(a: string, b: string, d: string, c: char)
    ensures Join([a, b, d], c) == a + [c] + b + [c] + d
  {
    assert [a, b, d][1..] == [b, d];
    assert [b, d][1..] == [d];
    assert Join([b, d], c) == b + [c] + d;
    assert Join([a, b, d], c) == a + [c] + (b + [c] + d);
  }
}
