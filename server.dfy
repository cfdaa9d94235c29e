/** The wiki server: the article store it owns and the handlers the routes
    run. A handler's observable result is a directive to the response:
    render a view with a bag of template variables, or redirect. */
module Server {
  import opened Articles
  import opened Routes

  /** The template variables each view is given. */
  datatype Vars =
    | NoVars                               // render('new') passes none
    | ArticlesVar(articles: Store)         // { articles: articles }
    | ArticleVar(article: Option<Article>) // { article: articles[id] }

  datatype Directive = Render(view: string, vars: Vars) | Redirect(location: string)

  /** The outcome of one request: a handler's directive, no answer at all
      (the handler body is empty), or no registered route. */
  datatype Reply = Handled(directive: Directive) | Unanswered | NoRoute

  /** The parsed request body of a submitted article form. */
  datatype Form = Form(title: string, content: string)

  class Wiki {
    /** The module-level `articles` dictionary. */
    var articles: Store

    ghost predicate Valid()
      reads this
    {
      KeysMatchIds(articles)
    }

    /** The store as the server starts: the two seed articles. */
    constructor ()
      ensures articles == Seed()
      ensures Valid()
    {
      articles := Seed();
    }

    /** GET /: the index view, given the whole store. */
    function Index(): (d: Directive)
      reads this
      ensures d.Render? && d.view == "index" && d.vars == ArticlesVar(articles)
    {
      Render("index", ArticlesVar(articles))
    }

    /** GET /articles/new: the empty form, with no variables. */
    function NewForm(): (d: Directive)
      ensures d.Render? && d.view == "new" && d.vars == NoVars
    {
      Render("new", NoVars)
    }

    /** GET /articles/:id: the show view, given the record stored under the
        id, or no record when there is none (no error is raised). */
    function Show(id: string): (d: Directive)
      reads this
      ensures d.Render? && d.view == "show" && d.vars.ArticleVar?
      ensures d.vars.article.Some? <==> id in articles
      ensures id in articles ==> d.vars.article.value == articles[id]
      ensures Valid() && d.vars.article.Some? ==> d.vars.article.value.id == id
    {
      Render("show", ArticleVar(Lookup(articles, id)))
    }

    /** GET /articles/:id/edit: the edit view, given the record stored under
        the id, or no record when there is none. */
    function Edit(id: string): (d: Directive)
      reads this
      ensures d.Render? && d.view == "edit" && d.vars.ArticleVar?
      ensures d.vars.article.Some? <==> id in articles
      ensures id in articles ==> d.vars.article.value == articles[id]
      ensures Valid() && d.vars.article.Some? ==> d.vars.article.value.id == id
    {
      Render("edit", ArticleVar(Lookup(articles, id)))
    }

    /** POST /articles: store the submitted article under the id derived
        from its title, overwriting any record already there, and redirect
        to it. */
    method Create(title: string, content: string) returns (d: Directive)
      modifies this
      ensures articles == old(articles)[DeriveId(title) := Article(DeriveId(title), title, content)]
      ensures articles[DeriveId(title)] == Article(DeriveId(title), title, content)
      ensures forall k :: k in old(articles) && k != DeriveId(title) ==>
        k in articles && articles[k] == old(articles)[k]
      ensures d == Redirect("/articles/" + DeriveId(title))
      ensures old(Valid()) ==> Valid()
    {
      var newId := DeriveId(title);
      articles := articles[newId := Article(newId, title, content)];
      d := Redirect("/articles/" + newId);
    }

    /** POST /articles/:id: replace, or create, the record under the id from
        the URL. The id is kept; it is not derived again from the new title. */
    method Update(id: string, title: string, content: string) returns (d: Directive)
      modifies this
      ensures articles == old(articles)[id := Article(id, title, content)]
      ensures articles[id] == Article(id, title, content)
      ensures forall k :: k in old(articles) && k != id ==>
        k in articles && articles[k] == old(articles)[k]
      ensures d == Redirect("/articles/" + id)
      ensures old(Valid()) ==> Valid()
    {
      articles := articles[id := Article(id, title, content)];
      d := Redirect("/articles/" + id);
    }

    /** POST /articles/:id/delete: remove the record under the id, if any,
        and redirect home. Removing an absent id changes nothing. */
    method Delete(id: string) returns (d: Directive)
      modifies this
      ensures articles == old(articles) - {id}
      ensures id !in articles
      ensures id !in old(articles) ==> articles == old(articles)
      ensures forall k :: k in old(articles) && k != id ==>
        k in articles && articles[k] == old(articles)[k]
      ensures d == Redirect("/")
      ensures old(Valid()) ==> Valid()
    {
      articles := articles - {id};
      d := Redirect("/");
    }

    /** One request, dispatched by the route table to its handler. */
    method Serve(verb: Verb, path: string, form: Form) returns (reply: Reply)
      modifies this
      ensures old(Valid()) ==> Valid()
      ensures Dispatch(verb, path).None? ==> reply == NoRoute && articles == old(articles)
      ensures Dispatch(verb, path).Some? ==>
        var d := Dispatch(verb, path).value;
        match d.handler
        case Home => reply == Handled(old(Index())) && articles == old(articles)
        case NewArticle => reply == Handled(NewForm()) && articles == old(articles)
        case ShowArticle =>
          "id" in d.params && reply == Handled(old(Show(d.params["id"]))) && articles == old(articles)
        case EditArticle =>
          "id" in d.params && reply == Handled(old(Edit(d.params["id"]))) && articles == old(articles)
        case CreateArticle =>
          var id := DeriveId(form.title);
          reply == Handled(Redirect("/articles/" + id)) &&
          articles == old(articles)[id := Article(id, form.title, form.content)]
        case UpdateArticle =>
          "id" in d.params &&
          var id := d.params["id"];
          reply == Handled(Redirect("/articles/" + id)) &&
          articles == old(articles)[id := Article(id, form.title, form.content)]
        case DeleteArticle =>
          "id" in d.params && reply == Handled(Redirect("/")) &&
          articles == old(articles) - {d.params["id"]}
        case AuthStub => reply == Unanswered && articles == old(articles)
    {
      match Dispatch(verb, path)
      case None =>
        reply := NoRoute;
      case Some(d) =>
        DispatchParams(verb, path);
        match d.handler
        case Home =>
          reply := Handled(Index());
        case NewArticle =>
          reply := Handled(NewForm());
        case ShowArticle =>
          reply := Handled(Show(d.params["id"]));
        case EditArticle =>
          reply := Handled(Edit(d.params["id"]));
        case CreateArticle =>
          var r := Create(form.title, form.content);
          reply := Handled(r);
        case UpdateArticle =>
          var r := Update(d.params["id"], form.title, form.content);
          reply := Handled(r);
        case DeleteArticle =>
          var r := Delete(d.params["id"]);
          reply := Handled(r);
        case AuthStub =>
          reply := Unanswered;
    }
  }

  /** Where the redirect after creating an article leads, for a next request
      whose path is the redirect's location: to that article when its id is a
      single segment other than "new"; to the new-article form when the id is
      "new"; and to no route at all when the title is empty or starts with a
      space, as the id is then empty. The show case leaves out the ids that a
      browser would not send back unchanged as a path: those holding '?' (a
      query), '#' (a fragment) or '%' (an escape), and the dot segments "."
      and "..". */
  lemma CreateRedirectTarget(title: string)
    ensures var id := DeriveId(title);
      ('/' !in id && '?' !in id && '#' !in id && '%' !in id &&
       id != "" && id != "." && id != ".." && id != "new" ==>
        Dispatch(Get, "/articles/" + id) == Some(Dispatched(ShowArticle, map["id" := id]))) &&
      (id == "new" ==> Dispatch(Get, "/articles/" + id) == Some(Dispatched(NewArticle, map[]))) &&
      (id == "" ==> Dispatch(Get, "/articles/" + id) == None)
  {
    var id := DeriveId(title);
    if '/' !in id && id != "" && id != "new" {
      ShowRoute(id);
    } else if id == "new" {
      NewFormBeforeShow(id);
    } else if id == "" {
      EmptyIdUnrouted(id);
    }
  }

  /** The life of one article through the handlers, from a fresh server:
      create it, update it under its id with a title whose first word
      differs, then delete it twice. The record stays under the id derived
      at creation, the new title's first word never becomes an id, and the
      second delete changes nothing. */
  method ArticleLifecycle(title: string, other: string, content: string, body: string)
    requires DeriveId(other) != DeriveId(title)
    requires DeriveId(other) !in Seed()
  {
    var wiki := new Wiki();
    var id := DeriveId(title);
    var d := wiki.Create(title, content);
    assert d == Redirect("/articles/" + id);
    assert wiki.Show(id).vars.article == Some(Article(id, title, content));
    d := wiki.Update(id, other, body);
    assert wiki.Show(id).vars.article == Some(Article(id, other, body));
    assert DeriveId(other) !in wiki.articles;
    d := wiki.Delete(id);
    var once := wiki.articles;
    d := wiki.Delete(id);
    assert wiki.articles == once && id !in wiki.articles;
    assert wiki.Show(id).vars.article == None;
    assert wiki.Valid();
  }
}
