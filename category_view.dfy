/**
 * The category view of `fix.js`: a cache of rendered cards per category in
 * front of the loader, the category being shown, the level filter, and the
 * filter buttons that choose between them. The transitions are functions on a
 * `View` value; the `CategoryCache` class at the end performs them in place.
 */
module CategoryView {
  import opened Wrappers
  import opened Sequences
  import opened JsStrings
  import opened Levels
  import opened Page
  import opened ResourcesLoader
  import opened FixParser

  // ---------------------------------------------------------------------------
  // Paths, images and cards
  // ---------------------------------------------------------------------------

  /** The document a category is fetched from: its whitespace runs become hyphens. */
  function FetchPath(category: string): string {
    "resources/" + HyphenateWhitespace(category) + ".md"
  }

  /** For a category without whitespace this is the path the startup loader fetches. */
  lemma FetchPathOfPlainCategory(category: string)
    requires NoWhitespace(category)
    ensures FetchPath(category) == CategoryPath(category)
  {
  }

  /** The image of every card of a category: the category lower-cased and hyphenated, with `.jpg`. */
  function ImageName(category: string): string {
    CategoryTag(category) + ".jpg"
  }

  /** `createResourceCard`: the classes name the level, the one tag is the level. */
  function CardOf(l: Listing): Card {
    Card("resource-card " + Name(l.level), ImageName(l.category), l.title, l.description, [Name(l.level)], l.url)
  }

  /** One card per listing, in order. */
  function Cards(ls: seq<Listing>): (nodes: seq<Node>)
    ensures |nodes| == |ls|
    ensures forall k | 0 <= k < |ls| :: nodes[k] == CardNode(CardOf(ls[k]))
  {
    if ls == [] then [] else [CardNode(CardOf(ls[0]))] + Cards(ls[1..])
  }

  /** The text shown when a category document has no resource lines. */
  function NoneFoundText(category: string): string {
    "No resources found for " + category
  }

  /** The text shown when no card of a category has the chosen level. */
  function NoLevelText(level: string, category: string): string {
    "No " + level + " resources found for " + category
  }

  /** The text shown when a fetch fails. */
  const ErrorText := "Error loading resources. Please try again."

  /** The fragment built from a category's listings: one card each, or the single "none found" node. */
  function Fragment(category: string, ls: seq<Listing>): (nodes: seq<Node>)
    ensures nodes != []
    ensures ls == [] ==> nodes == [NoResources(NoneFoundText(category))]
    ensures ls != [] ==> nodes == Cards(ls)
  {
    if ls == [] then [NoResources(NoneFoundText(category))] else Cards(ls)
  }

  /** What a category renders from the body of its document. */
  function Fresh(category: string, markdown: string): seq<Node> {
    Fragment(category, MarkdownListings(markdown, category))
  }

  /** A card carries exactly two classes: `resource-card` and its level's name. */
  lemma LevelCardClasses(n: string, t: string)
    requires n != "" && ' ' !in n
    ensures HasClass("resource-card " + n, t) <==> t != "" && (t == "resource-card" || t == n)
  {
    assert "resource-card " + n == "resource-card" + " " + n;
    TwoClasses("resource-card", n, t);
  }

  /** A level's name is a single class token. */
  lemma NameIsToken(level: Level)
    ensures Name(level) != "" && ' ' !in Name(level)
  {
    match level
    case Beginner =>
    case Intermediate =>
    case Advanced =>
  }

  // ---------------------------------------------------------------------------
  // The view and its transitions
  // ---------------------------------------------------------------------------

  /**
   * The state `fix.js` keeps and shows: the cache, the current category, the
   * section heading's text and the container's children. A heading or
   * container that is `None` is an element the page does not have.
   */
  datatype View = View(
    cache: map<string, seq<Node>>,
    current: Option<string>,
    heading: Option<string>,
    container: Option<seq<Node>>)

  /** The heading for a whole category. */
  function CategoryTitle(category: string): string {
    Capitalize(category) + " Resources"
  }

  /** The heading for one level of a category. */
  function LevelTitle(level: string, category: string): string {
    Capitalize(level) + " " + Capitalize(category) + " Resources"
  }

  /** The elements the page has stay, and those it lacks stay missing. */
  predicate SamePage(v: View, w: View) {
    (v.heading.Some? <==> w.heading.Some?) && (v.container.Some? <==> w.container.Some?)
  }

  /**
   * The cache after a step: unchanged, or grown by the entry for `category`,
   * which was absent, whose document was fetched, and which holds what that
   * document renders. No entry is ever removed or replaced.
   */
  predicate CacheStep(before: map<string, seq<Node>>, after: map<string, seq<Node>>, category: string, docs: Documents) {
    after == before ||
    (category !in before && FetchPath(category) in docs &&
     after == before[category := Fresh(category, docs[FetchPath(category)])])
  }

  /**
   * `loadResourcesForCategoryOnce` past its guard: the category becomes the
   * current one and titles the heading; then, if there is a container, it
   * shows the cached cards, or fetches the document, renders it and caches the
   * result, or shows the error text when the fetch fails. A cache hit shows
   * a copy of the entry, which stays as it was.
   */
  function CategoryShown(v: View, category: string, docs: Documents): (r: View)
    ensures r.current == Some(category)
    ensures r.heading == Retitle(v.heading, CategoryTitle(category))
    ensures SamePage(v, r)
    ensures CacheStep(v.cache, r.cache, category, docs)
    ensures v.container.None? ==> r.cache == v.cache && r.container == None
    ensures r.container.Some? && category in v.cache ==> r.container == Some(v.cache[category])
    ensures r.container.Some? && category !in v.cache && FetchPath(category) in docs ==>
      r.container == Some(Fresh(category, docs[FetchPath(category)]))
    ensures r.container.Some? && category !in v.cache && FetchPath(category) !in docs ==>
      r.container == Some([LoadError(ErrorText)]) && r.cache == v.cache
  {
    var shown := v.(current := Some(category), heading := Retitle(v.heading, CategoryTitle(category)));
    if v.container.None? then shown
    else if category in v.cache then shown.(container := Some(v.cache[category]))
    else match Fetch(docs, FetchPath(category))
      case None => shown.(container := Some([LoadError(ErrorText)]))
      case Some(markdown) =>
        var fragment := Fresh(category, markdown);
        shown.(cache := v.cache[category := fragment], container := Some(fragment))
  }

  /**
   * `loadResourcesForCategoryOnce(category)`: nothing happens when the
   * category is already the current one; otherwise `CategoryShown`. The
   * category stays current even when the container is missing or the fetch
   * fails, so asking again is then ignored too.
   */
  function LoadOnce(v: View, category: string, docs: Documents): (r: View)
    ensures v.current == Some(category) ==> r == v
    ensures r.current == Some(category)
    ensures SamePage(v, r)
    ensures CacheStep(v.cache, r.cache, category, docs)
  {
    if v.current == Some(category) then v else CategoryShown(v, category, docs)
  }

  /** A cache hit does not look at the documents: the outcome is the same whatever they hold. */
  lemma CacheHitNeedsNoFetch(v: View, category: string, docs1: Documents, docs2: Documents)
    requires category in v.cache
    ensures LoadOnce(v, category, docs1) == LoadOnce(v, category, docs2)
  {
  }

  /** `card.classList.contains(level)`, or any card for `'all'`; other nodes are never kept. */
  predicate KeepsCard(level: string, node: Node) {
    node.CardNode? && (level == "all" || HasClass(node.card.className, level))
  }

  /** `KeepsCard` as the test the cached branch applies to each node. */
  function CardTest(level: string): Node -> bool {
    (node: Node) => KeepsCard(level, node)
  }

  /** `resource.level === level`, the test the fetch branch applies to each listing. */
  function ListingTest(level: string): Listing -> bool {
    (l: Listing) => Name(l.level) == level
  }

  /** The cached cards a level filter keeps, in order. */
  function FilterCards(nodes: seq<Node>, level: string): seq<Node> {
    Filter(nodes, CardTest(level))
  }

  /** The freshly parsed listings a level filter keeps: all for `'all'`, else those whose level's name is `level`. */
  function AtLevel(ls: seq<Listing>, level: string): seq<Listing> {
    if level == "all" then ls else Filter(ls, ListingTest(level))
  }

  /** The kept nodes, or the single "none at this level" node when nothing is kept. */
  function OrPlaceholder(nodes: seq<Node>, level: string, category: string): (r: seq<Node>)
    ensures r != []
    ensures nodes != [] ==> r == nodes
  {
    if nodes == [] then [NoResources(NoLevelText(level, category))] else nodes
  }

  /**
   * `applyLevelFilter(category, level)`: titles the heading with the level;
   * then, if there is a container, shows the cached cards of that level, or
   * fetches and parses the document and shows the cards of the listings of
   * that level, or the error text when the fetch fails. It neither writes the
   * cache nor changes the current category.
   */
  function LevelFiltered(v: View, category: string, level: string, docs: Documents): (r: View)
    ensures r.cache == v.cache && r.current == v.current
    ensures r.heading == Retitle(v.heading, LevelTitle(level, category))
    ensures SamePage(v, r)
  {
    var titled := v.(heading := Retitle(v.heading, LevelTitle(level, category)));
    if v.container.None? then titled
    else if category in v.cache then
      titled.(container := Some(OrPlaceholder(FilterCards(v.cache[category], level), level, category)))
    else match Fetch(docs, FetchPath(category))
      case None => titled.(container := Some([LoadError(ErrorText)]))
      case Some(markdown) =>
        titled.(container := Some(OrPlaceholder(Cards(AtLevel(MarkdownListings(markdown, category), level)), level, category)))
  }

  /** The category a filter button acts on: the current one, or `fundamentals` when there is none. */
  function FilterCategory(current: Option<string>): (c: string)
    ensures c != ""
    ensures current.Some? && current.value != "" ==> c == current.value
    ensures !(current.Some? && current.value != "") ==> c == "fundamentals"
  {
    if current.Some? && current.value != "" then current.value else "fundamentals"
  }

  /**
   * A click on a filter button with a non-empty `data-filter`: `'all'` shows
   * the whole category, any other value filters it by that level.
   */
  function FilterClick(v: View, filter: string, docs: Documents): (r: View)
    requires filter != ""
    ensures SamePage(v, r)
    ensures CacheStep(v.cache, r.cache, FilterCategory(v.current), docs)
    ensures filter == "all" ==> r.current == Some(FilterCategory(v.current))
    ensures filter != "all" ==> r.current == v.current && r.cache == v.cache
  {
    var category := FilterCategory(v.current);
    if filter == "all" then CategoryShown(v, category, docs) else LevelFiltered(v, category, filter, docs)
  }

  // ---------------------------------------------------------------------------
  // The cache holds what the documents render
  // ---------------------------------------------------------------------------

  /** Every cache entry is what its category's document renders. */
  predicate CacheFaithful(cache: map<string, seq<Node>>, docs: Documents) {
    forall c | c in cache :: FetchPath(c) in docs && cache[c] == Fresh(c, docs[FetchPath(c)])
  }

  /** A cache step keeps the cache faithful. */
  lemma CacheStepFaithful(before: map<string, seq<Node>>, after: map<string, seq<Node>>, category: string, docs: Documents)
    requires CacheFaithful(before, docs) && CacheStep(before, after, category, docs)
    ensures CacheFaithful(after, docs)
  {
  }

  /**
   * With a faithful cache, showing a category shows what fetching it would:
   * the cache changes when the page is drawn, not what is drawn.
   */
  lemma ShowIsTransparent(v: View, category: string, docs: Documents)
    requires CacheFaithful(v.cache, docs)
    ensures CategoryShown(v, category, docs).container == CategoryShown(v.(cache := map[]), category, docs).container
  {
  }

  /** On the cards of one fragment, filtering by class keeps the cards of the listings of that level. */
  lemma {:induction false} FilterCardsOfCards(ls: seq<Listing>, level: string)
    requires level != "resource-card"
    ensures FilterCards(Cards(ls), level) == Cards(AtLevel(ls, level))
    decreases |ls|
  {
    if ls != [] {
      var head, rest := CardNode(CardOf(ls[0])), Cards(ls[1..]);
      assert Cards(ls) == [head] + rest;
      assert ([head] + rest)[0] == head && ([head] + rest)[1..] == rest;
      FilterCardsOfCards(ls[1..], level);
      NameIsToken(ls[0].level);
      LevelCardClasses(Name(ls[0].level), level);
      if level == "all" {
        assert KeepsCard(level, head);
      } else {
        assert ls[1..] == ls[1..];
        var p := ListingTest(level);
        assert Filter(ls, p) == (if p(ls[0]) then [ls[0]] + Filter(ls[1..], p) else Filter(ls[1..], p));
        if p(ls[0]) {
          assert Cards([ls[0]] + Filter(ls[1..], p)) == [head] + Cards(Filter(ls[1..], p)) by {
            assert ([ls[0]] + Filter(ls[1..], p))[1..] == Filter(ls[1..], p);
          }
        }
      }
    }
  }

  /** The "none found" node is never kept by a level filter. */
  lemma FilterFragment(category: string, ls: seq<Listing>, level: string)
    requires level != "resource-card"
    ensures FilterCards(Fragment(category, ls), level) == Cards(AtLevel(ls, level))
  {
    if ls == [] {
      assert !KeepsCard(level, NoResources(NoneFoundText(category)));
      assert [NoResources(NoneFoundText(category))][1..] == [];
    } else {
      FilterCardsOfCards(ls, level);
    }
  }

  /**
   * With a faithful cache, filtering the cached cards shows what filtering
   * freshly parsed listings would, for any level but the card class itself.
   */
  lemma FilterIsTransparent(v: View, category: string, level: string, docs: Documents)
    requires CacheFaithful(v.cache, docs) && level != "resource-card"
    ensures LevelFiltered(v, category, level, docs).container ==
      LevelFiltered(v.(cache := map[]), category, level, docs).container
  {
    if v.container.Some? && category in v.cache {
      var markdown := docs[FetchPath(category)];
      FilterFragment(category, MarkdownListings(markdown, category), level);
    }
  }

  /** One thing a visitor does: choose a category (a path card), or click a filter button. */
  datatype Event = Choose(category: string) | Click(filter: string)

  /** The view after one event; a button without `data-filter` has no handler. */
  function Step(v: View, e: Event, docs: Documents): (r: View)
    ensures SamePage(v, r)
  {
    match e
    case Choose(category) => LoadOnce(v, category, docs)
    case Click(filter) => if filter == "" then v else FilterClick(v, filter, docs)
  }

  /** The view after a run of events. */
  function Run(v: View, events: seq<Event>, docs: Documents): View
    decreases |events|
  {
    if events == [] then v else Run(Step(v, events[0], docs), events[1..], docs)
  }

  /** The page as the script leaves it at start-up: `fundamentals` loaded into an empty cache. */
  function Start(heading: Option<string>, container: Option<seq<Node>>, docs: Documents): View {
    LoadOnce(View(map[], None, heading, container), "fundamentals", docs)
  }

  /** One event keeps the cache faithful. */
  lemma StepFaithful(v: View, e: Event, docs: Documents)
    requires CacheFaithful(v.cache, docs)
    ensures CacheFaithful(Step(v, e, docs).cache, docs)
  {
    match e
    case Choose(category) =>
      CacheStepFaithful(v.cache, Step(v, e, docs).cache, category, docs);
    case Click(filter) =>
      if filter != "" {
        CacheStepFaithful(v.cache, Step(v, e, docs).cache, FilterCategory(v.current), docs);
      }
  }

  /** Whatever the visitor does, the cache holds exactly what the documents render. */
  lemma {:induction false} RunFaithful(v: View, events: seq<Event>, docs: Documents)
    requires CacheFaithful(v.cache, docs)
    ensures CacheFaithful(Run(v, events, docs).cache, docs)
    decreases |events|
  {
    if events != [] {
      StepFaithful(v, events[0], docs);
      RunFaithful(Step(v, events[0], docs), events[1..], docs);
    }
  }

  /** The start-up page has a faithful cache, and so does every page reached from it. */
  lemma StartFaithful(heading: Option<string>, container: Option<seq<Node>>, events: seq<Event>, docs: Documents)
    ensures CacheFaithful(Run(Start(heading, container, docs), events, docs).cache, docs)
  {
    var v0 := View(map[], None, heading, container);
    CacheStepFaithful(v0.cache, Start(heading, container, docs).cache, "fundamentals", docs);
    RunFaithful(Start(heading, container, docs), events, docs);
  }

  /** Once a category's document is fetched, clicking `'all'` shows the whole category as the document renders it. */
  lemma AllShowsWholeCategory(v: View, docs: Documents)
    requires CacheFaithful(v.cache, docs) && v.container.Some?
    requires FetchPath(FilterCategory(v.current)) in docs
    ensures var c := FilterCategory(v.current);
      FilterClick(v, "all", docs).container == Some(Fresh(c, docs[FetchPath(c)]))
  {
  }

  // ---------------------------------------------------------------------------
  // As written: a cache hit moves the cached nodes out, and 'all' is guarded
  // ---------------------------------------------------------------------------

  /**
   * `loadResourcesForCategoryOnce` as written. A cache hit appends the cached
   * document fragment itself to the container; appending a fragment moves its
   * children, so the entry is left empty.
   */
  function LoadOnceAsWritten(v: View, category: string, docs: Documents): (r: View)
    ensures r.current == Some(category)
    ensures v.container.Some? && v.current != Some(category) && category in v.cache ==>
      r.container == Some(v.cache[category]) && r.cache == v.cache[category := []]
  {
    if v.current == Some(category) then v
    else
      var r := CategoryShown(v, category, docs);
      if v.container.Some? && category in v.cache then r.(cache := v.cache[category := []]) else r
  }

  /** A filter click as written: `'all'` goes through the same-category guard. */
  function FilterClickAsWritten(v: View, filter: string, docs: Documents): View
    requires filter != ""
  {
    var category := FilterCategory(v.current);
    if filter == "all" then LoadOnceAsWritten(v, category, docs) else LevelFiltered(v, category, filter, docs)
  }

  /** A first visit with a container and a successful fetch caches and shows the fresh fragment, as written and as intended. */
  lemma FirstVisit(v: View, c: string, docs: Documents)
    requires c !in v.cache && v.current != Some(c) && v.container.Some? && FetchPath(c) in docs
    ensures LoadOnceAsWritten(v, c, docs) == LoadOnce(v, c, docs)
    ensures LoadOnce(v, c, docs).cache == v.cache[c := Fresh(c, docs[FetchPath(c)])]
    ensures LoadOnce(v, c, docs).current == Some(c)
    ensures LoadOnce(v, c, docs).container == Some(Fresh(c, docs[FetchPath(c)]))
  {
  }

  /**
   * As written, a revisited category is shown from its emptied cache entry:
   * after A, B, A, B, A the container is empty.
   */
  lemma RevisitShowsNothing(v0: View, a: string, b: string, docs: Documents)
    requires v0.cache == map[] && v0.current == None && v0.container.Some?
    requires a != b && FetchPath(a) in docs && FetchPath(b) in docs
    ensures var x := LoadOnceAsWritten(LoadOnceAsWritten(v0, a, docs), b, docs);
      var y := LoadOnceAsWritten(LoadOnceAsWritten(x, a, docs), b, docs);
      LoadOnceAsWritten(y, a, docs).container == Some([])
  {
    FirstVisit(v0, a, docs);
    var w := LoadOnceAsWritten(v0, a, docs);
    FirstVisit(w, b, docs);
    var x := LoadOnceAsWritten(w, b, docs);
    assert a in x.cache && x.current == Some(b);
    var x2 := LoadOnceAsWritten(x, a, docs);
    assert x2.cache == x.cache[a := []] && x2.current == Some(a);
    var y := LoadOnceAsWritten(x2, b, docs);
    assert y.cache == x2.cache[b := []] && y.cache[a] == [];
  }

  /** The intended reading of the same visits: the fifth one shows A's fresh fragment again, which is never empty. */
  lemma RevisitShowsCategory(v0: View, a: string, b: string, docs: Documents)
    requires v0.cache == map[] && v0.current == None && v0.container.Some?
    requires a != b && FetchPath(a) in docs && FetchPath(b) in docs
    ensures var x := LoadOnce(LoadOnce(v0, a, docs), b, docs);
      var y := LoadOnce(LoadOnce(x, a, docs), b, docs);
      var z := LoadOnce(y, a, docs);
      z.container == Some(Fresh(a, docs[FetchPath(a)])) && z.container != Some([])
  {
    FirstVisit(v0, a, docs);
    var w := LoadOnce(v0, a, docs);
    FirstVisit(w, b, docs);
    var x := LoadOnce(w, b, docs);
    assert x.cache[a] == Fresh(a, docs[FetchPath(a)]) && x.current == Some(b);
    var x2 := LoadOnce(x, a, docs);
    assert x2.cache == x.cache && x2.current == Some(a);
    var y := LoadOnce(x2, b, docs);
    assert y.cache == x.cache && y.current == Some(b);
  }

  /**
   * As written, `'all'` after a level filter on the current category changes
   * nothing: the filtered cards stay on the page.
   */
  lemma AllAfterFilterIsIgnored(v: View, docs: Documents)
    requires v.current.Some? && v.current.value != ""
    ensures FilterClickAsWritten(v, "all", docs) == v
  {
  }

  /**
   * A page with one intermediate card of the current category cached and
   * shown. Clicking `beginner` shows the "none at this level" node; clicking
   * `'all'` then leaves it there as written, while the intended view shows
   * the card again.
   */
  lemma AllAfterFilterExample(l: Listing, docs: Documents)
    requires l.level == Intermediate && l.category != ""
    ensures var card := CardNode(CardOf(l));
      var v := View(map[l.category := [card]], Some(l.category), None, Some([card]));
      var filtered := FilterClickAsWritten(v, "beginner", docs);
      filtered.container == Some([NoResources(NoLevelText("beginner", l.category))]) &&
      FilterClickAsWritten(filtered, "all", docs).container == filtered.container &&
      FilterClick(filtered, "all", docs).container == Some([card])
  {
    var card := CardNode(CardOf(l));
    var v := View(map[l.category := [card]], Some(l.category), None, Some([card]));
    LevelCardClasses("intermediate", "beginner");
    assert !KeepsCard("beginner", card);
    assert FilterCards([card], "beginner") == [] by {
      assert [card][1..] == [];
    }
    var filtered := FilterClickAsWritten(v, "beginner", docs);
    assert filtered == v.(container := Some([NoResources(NoLevelText("beginner", l.category))]));
  }

  // ---------------------------------------------------------------------------
  // The script's state, updated in place
  // ---------------------------------------------------------------------------

  /** `fix.js` builds the fragment for a category's listings, one card at a time. */
  method BuildFragment(category: string, listings: seq<Listing>) returns (fragment: seq<Node>)
    ensures fragment == Fragment(category, listings)
  {
    if |listings| == 0 {
      return [NoResources(NoneFoundText(category))];
    }
    fragment := [];
    for i := 0 to |listings|
      invariant |fragment| == i
      invariant forall k | 0 <= k < i :: fragment[k] == CardNode(CardOf(listings[k]))
    {
      fragment := fragment + [CardNode(CardOf(listings[i]))];
    }
    assert fragment == Cards(listings);
  }

  /** The cached-cards branch of `applyLevelFilter`: clones the matching cards and counts them. */
  method FilterCachedCards(cards: seq<Node>, level: string) returns (kept: seq<Node>, matchCount: nat)
    ensures kept == FilterCards(cards, level)
    ensures matchCount == |kept|
  {
    kept, matchCount := [], 0;
    ghost var p := CardTest(level);
    for i := 0 to |cards|
      invariant kept == Filter(cards[..i], p) && matchCount == |kept|
    {
      FilterSnoc(cards[..i], cards[i], p);
      assert cards[..i + 1] == cards[..i] + [cards[i]];
      if level == "all" || (cards[i].CardNode? && HasClass(cards[i].card.className, level)) {
        if cards[i].CardNode? {
          kept := kept + [cards[i]];
          matchCount := matchCount + 1;
        }
      }
    }
    assert cards[..|cards|] == cards;
  }

  /**
   * `resourceCache`, `currentCategory`, the heading element's text and the
   * container element, with the operations that update them. Each method
   * performs the matching transition on `State()`.
   */
  class CategoryCache {
    var resourceCache: map<string, seq<Node>>
    var currentCategory: Option<string>
    var resourcesTitle: Option<string>
    const resourcesContainer: Container?

    /** The view these fields make up. */
    function State(): View
      reads this, resourcesContainer
    {
      View(resourceCache, currentCategory, resourcesTitle,
           if resourcesContainer == null then None else Some(resourcesContainer.nodes))
    }

    /** The script's state before anything is loaded. */
    constructor (title: Option<string>, container: Container?)
      ensures resourceCache == map[] && currentCategory == None
      ensures resourcesTitle == title && resourcesContainer == container
    {
      resourceCache := map[];
      currentCategory := None;
      resourcesTitle := title;
      resourcesContainer := container;
    }

    /** `loadResourcesForCategoryOnce(category)`, with the documents the fetch would read. */
    method LoadResourcesForCategoryOnce(category: string, docs: Documents)
      modifies this, resourcesContainer
      ensures State() == LoadOnce(old(State()), category, docs)
    {
      if currentCategory == Some(category) {
        return;
      }
      ShowCategory(category, docs);
    }

    /** The body of `loadResourcesForCategoryOnce` past its guard. */
    method ShowCategory(category: string, docs: Documents)
      modifies this, resourcesContainer
      ensures State() == CategoryShown(old(State()), category, docs)
    {
      currentCategory := Some(category);
      if resourcesTitle.Some? {
        resourcesTitle := Some(CategoryTitle(category));
      }
      if resourcesContainer == null {
        return;
      }
      if category in resourceCache {
        resourcesContainer.nodes := resourceCache[category];
        return;
      }
      var response := Fetch(docs, FetchPath(category));
      if response.None? {
        resourcesContainer.nodes := [LoadError(ErrorText)];
        return;
      }
      var listings := ParseMarkdownToResources(response.value, category);
      var fragment := BuildFragment(category, listings);
      resourceCache := resourceCache[category := fragment];
      resourcesContainer.nodes := fragment;
    }

    /** `applyLevelFilter(category, level)`, with the documents the fetch would read. */
    method ApplyLevelFilter(category: string, level: string, docs: Documents)
      modifies this, resourcesContainer
      ensures State() == LevelFiltered(old(State()), category, level, docs)
    {
      if resourcesTitle.Some? {
        resourcesTitle := Some(LevelTitle(level, category));
      }
      if resourcesContainer == null {
        return;
      }
      var shown: seq<Node>;
      if category in resourceCache {
        var kept, matchCount := FilterCachedCards(resourceCache[category], level);
        shown := if matchCount == 0 then [NoResources(NoLevelText(level, category))] else kept;
      } else {
        var response := Fetch(docs, FetchPath(category));
        if response.None? {
          shown := [LoadError(ErrorText)];
        } else {
          var listings := ParseMarkdownToResources(response.value, category);
          var selected := AtLevel(listings, level);
          if |selected| == 0 {
            shown := [NoResources(NoLevelText(level, category))];
          } else {
            shown := BuildFragment(category, selected);
          }
        }
      }
      resourcesContainer.nodes := shown;
    }

    /** A click on a filter button whose `data-filter` is `filter`. */
    method ClickFilter(filter: string, docs: Documents)
      requires filter != ""
      modifies this, resourcesContainer
      ensures State() == FilterClick(old(State()), filter, docs)
    {
      var category := if currentCategory.Some? && currentCategory.value != "" then currentCategory.value else "fundamentals";
      if filter == "all" {
        ShowCategory(category, docs);
      } else {
        ApplyLevelFilter(category, filter, docs);
      }
    }
  }
}
