/** The article records of the wiki, the store that holds them, the seed
    data the server starts with, and the derivation of an article's id from
    its title. */
module Articles {
  import opened Strings

  datatype Option<T> = None | Some(value: T)

  datatype Article = Article(id: string, title: string, content: string)

  /** The in-memory `articles` object: a dictionary from id to record. */
  type Store = map<string, Article>

  /** Every record is stored under its own id. */
  predicate KeysMatchIds(s: Store)
  {
    forall k :: k in s ==> s[k].id == k
  }

  /** Property access `articles[id]`: the record, or `undefined` (here None)
      when no record is stored under `id`. */
  function Lookup(s: Store, id: string): (r: Option<Article>)
    ensures r.Some? <==> id in s
    ensures r.Some? ==> r.value == s[id]
  {
    if id in s then Some(s[id]) else None
  }

  /** The titles and contents of the two seed articles. */
  const WIKI_TITLE := "The meaning of the word 'wiki'"
  const WIKI_CONTENT := "'Wiki' means 'quick' in Olelo Hawai'i."
  const INSTRUCTIONS_TITLE := "How to use a wiki"
  const INSTRUCTIONS_CONTENT :=
    "To use this wiki, add a new article from the home page, or click into any article to read, edit or delete it."

  /** The two articles the store holds when the server starts. */
  function Seed(): (s: Store)
    ensures s.Keys == {"wiki", "instructions"}
    ensures KeysMatchIds(s)
    ensures s["wiki"].title == WIKI_TITLE
  {
    map[
      "wiki" := Article("wiki", WIKI_TITLE, WIKI_CONTENT),
      "instructions" := Article("instructions", INSTRUCTIONS_TITLE, INSTRUCTIONS_CONTENT)
    ]
  }

  /** `title.split(' ')[0]`: the part of the title before its first space
      character, or the whole title when it has none. */
  function DeriveId(title: string): (id: string)
    ensures id <= title
    ensures ' ' !in id
    ensures |id| < |title| ==> title[|id|] == ' '
    ensures ' ' !in title ==> id == title
  {
    Split(title, ' ')[0]
  }

  /** The id is determined by the title: any prefix free of spaces that is
      followed by a space or ends the title is the derived id. */
  lemma DeriveIdUnique(title: string, p: string)
    requires p <= title && ' ' !in p
    requires |p| == |title| || title[|p|] == ' '
    ensures DeriveId(title) == p
  {
  }

  /** Worked cases of the derivation: a two-word title, an empty title, and a
      title that starts with a space. */
  lemma DeriveIdExamples()
    ensures DeriveId("Test Article") == "Test"
    ensures DeriveId("") == ""
    ensures DeriveId(" leading") == ""
  {
    DeriveIdUnique("Test Article", "Test");
    DeriveIdUnique(" leading", "");
  }
}
