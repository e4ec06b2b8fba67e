/**
 * The resource section of `js/main.js`: the category filter behind the path
 * cards, the level filter behind the filter buttons with its cap of twelve,
 * which filter button is active, and the section id a navigation link names.
 */
module MainScript {
  import opened Wrappers
  import opened Sequences
  import opened JsStrings
  import opened Levels
  import opened Page
  import opened ResourcesLoader

  /** How many records a filter button shows at most. */
  const FilterCap: nat := 12

  /** `resource.tags.includes(category)`, or the category with its whitespace runs hyphenated. */
  predicate CategoryMatches(r: Resource, category: string) {
    category in r.tags || HyphenateWhitespace(category) in r.tags
  }

  /** The records of a category, in their order in the store. */
  function InCategory(rs: seq<Resource>, category: string): (matched: seq<Resource>)
    ensures IsSubsequence(matched, rs)
    ensures forall r | r in matched :: r in rs && CategoryMatches(r, category)
    ensures forall r | r in rs && CategoryMatches(r, category) :: r in matched
    ensures forall r | r in rs :: multiset(matched)[r] == if CategoryMatches(r, category) then multiset(rs)[r] else 0
  {
    FilterCounts(rs, (r: Resource) => CategoryMatches(r, category));
    Filter(rs, (r: Resource) => CategoryMatches(r, category))
  }

  /**
   * On records the startup loader produced, a category without whitespace
   * that is not a level's name selects exactly the records whose category tag
   * it is.
   */
  lemma LoadedCategorySelection(rs: seq<Resource>, category: string)
    requires forall i | 0 <= i < |rs| :: Tagged(rs[i], rs[i].category)
    requires NoWhitespace(category)
    requires forall l: Level :: category != Name(l)
    ensures InCategory(rs, category) == Filter(rs, (r: Resource) => CategoryTag(r.category) == category)
  {
    forall i | 0 <= i < |rs|
      ensures CategoryMatches(rs[i], category) == (CategoryTag(rs[i].category) == category)
    {
      TaggedMatch(rs[i], category);
    }
    FilterCongruent(rs, (r: Resource) => CategoryMatches(r, category), (r: Resource) => CategoryTag(r.category) == category);
  }

  /** A loaded record matches a plain category that is not a level's name exactly when that is its category tag. */
  lemma TaggedMatch(r: Resource, category: string)
    requires Tagged(r, r.category)
    requires NoWhitespace(category)
    requires category != Name(r.level)
    ensures CategoryMatches(r, category) == (CategoryTag(r.category) == category)
  {
    assert HyphenateWhitespace(category) == category;
    assert r.tags == [Name(r.level), CategoryTag(r.category)];
  }

  /** The records a filter button chooses from: all of them for `'all'`, else those whose level's name is the filter. */
  function LevelPool(rs: seq<Resource>, filter: string): (pool: seq<Resource>)
    ensures IsSubsequence(pool, rs)
    ensures filter != "all" ==> forall i | 0 <= i < |pool| :: Name(pool[i].level) == filter
    ensures filter == "all" ==> pool == rs
    ensures filter != "all" ==> forall r | r in rs && Name(r.level) == filter :: r in pool
    ensures filter != "all" ==> forall r | r in rs :: multiset(pool)[r] == if Name(r.level) == filter then multiset(rs)[r] else 0
  {
    if filter == "all" then
      assert IsSubsequence(rs, rs) by { SubsequenceOfItself(rs); }
      rs
    else
      FilterCounts(rs, (r: Resource) => Name(r.level) == filter);
      Filter(rs, (r: Resource) => Name(r.level) == filter)
  }

  /** The records a filter button shows: the first twelve of its pool, in order. */
  function LevelSelection(rs: seq<Resource>, filter: string): (shown: seq<Resource>)
    ensures |shown| == if |LevelPool(rs, filter)| < FilterCap then |LevelPool(rs, filter)| else FilterCap
    ensures shown == LevelPool(rs, filter)[..|shown|]
  {
    Take(LevelPool(rs, filter), FilterCap)
  }

  /** Every record a level button shows has that level, and there are never more than twelve. */
  lemma LevelSelectionLevels(rs: seq<Resource>, filter: string)
    requires filter != "all"
    ensures |LevelSelection(rs, filter)| <= FilterCap
    ensures forall i | 0 <= i < |LevelSelection(rs, filter)| :: Name(LevelSelection(rs, filter)[i].level) == filter
  {
    var pool, shown := LevelPool(rs, filter), LevelSelection(rs, filter);
    forall i | 0 <= i < |shown| ensures Name(shown[i].level) == filter {
      assert shown[i] == pool[i];
    }
  }

  /** A filter that names no level shows nothing. */
  lemma UnknownLevelShowsNothing(rs: seq<Resource>, filter: string)
    requires filter != "all" && forall l: Level :: Name(l) != filter
    ensures LevelSelection(rs, filter) == []
  {
    FilterDropsAll(rs, (r: Resource) => Name(r.level) == filter);
  }

  /** The heading for a category: the text of its path card's heading, or the category capitalised. */
  function Heading(cardHeadings: map<string, string>, category: string): string {
    if category in cardHeadings then cardHeadings[category] + " Resources"
    else Capitalize(category) + " Resources"
  }

  /** `document.querySelector('.filter-btn[data-filter="…"]')`: the first button with that filter. */
  function FirstWith(filters: seq<string>, value: string): (r: Option<nat>)
    ensures r.None? <==> value !in filters
    ensures r.Some? ==> r.value < |filters| && filters[r.value] == value
    ensures r.Some? ==> forall k | 0 <= k < r.value :: filters[k] != value
    decreases |filters|
  {
    if filters == [] then None
    else if filters[0] == value then Some(0)
    else match FirstWith(filters[1..], value)
      case None => None
      case Some(k) => Some(k + 1)
  }

  /** `href.substring(1)` for a link whose `href` starts with `#`: the id of the section it names. */
  function NavTarget(href: string): (id: string)
    requires StartsWith(href, "#")
    ensures "#" + id == href
  {
    href[1..]
  }

  /** The section id of the link to `#id` is `id`. */
  lemma NavTargetOfLink(id: string)
    ensures StartsWith("#" + id, "#") && NavTarget("#" + id) == id
  {
    assert ("#" + id)[..1] == "#";
  }

  /**
   * The resources section as `js/main.js` sees it: the store it reads
   * (`window.globalResources`, `None` when unset), the heading element's
   * text, the path cards' heading texts by category, the container, and the
   * filter buttons' `data-filter` values (`""` when missing) with their
   * `active` classes.
   */
  class ResourcesSection {
    var globalResources: Option<seq<Resource>>
    var heading: Option<string>
    const cardHeadings: map<string, string>
    const container: Container?
    const filters: seq<string>
    const active: array<bool>

    /** One `active` flag per filter button. */
    predicate Valid()
      reads this
    {
      active.Length == |filters|
    }

    /** The section with no button active and nothing rendered yet. */
    constructor (store: Option<seq<Resource>>, title: Option<string>, headings: map<string, string>,
                 resourcesContainer: Container?, buttons: seq<string>)
      ensures Valid()
      ensures globalResources == store && heading == title && cardHeadings == headings
      ensures container == resourcesContainer && filters == buttons
      ensures forall j | 0 <= j < active.Length :: !active[j]
      ensures fresh(active)
    {
      globalResources := store;
      heading := title;
      cardHeadings := headings;
      container := resourcesContainer;
      filters := buttons;
      active := new bool[|buttons|](_ => false);
    }

    /** The records of the store, or none when it is unset. */
    function Stored(): seq<Resource>
      reads this
    {
      if globalResources.Some? then globalResources.value else []
    }

    /**
     * `filterButtons.forEach(btn => btn.classList.remove('active'))`, then
     * `classList.add('active')` on button `button`, when there is one.
     */
    method ActivateOnly(button: Option<nat>)
      requires Valid() && (button.Some? ==> button.value < active.Length)
      modifies active
      ensures forall j | 0 <= j < active.Length :: active[j] == (button == Some(j))
    {
      for j := 0 to active.Length
        invariant forall k | 0 <= k < j :: !active[k]
      {
        active[j] := false;
      }
      if button.Some? {
        active[button.value] := true;
      }
    }

    /**
     * `displayCategoryResources(category)`: with no matching record in the
     * store it changes nothing and answers false. Otherwise it titles the
     * heading, makes the first `'all'` button the only active one, and
     * renders the matching records, answering whether there was a container
     * to render them into.
     */
    method DisplayCategoryResources(category: string) returns (shown: bool)
      requires Valid()
      modifies this, active, container
      ensures Valid() && globalResources == old(globalResources)
      ensures var matched := InCategory(old(Stored()), category);
        shown <==> matched != [] && container != null
      ensures var matched := InCategory(old(Stored()), category);
        matched == [] ==> (heading == old(heading) && active[..] == old(active[..]) &&
          (container != null ==> container.nodes == old(container.nodes)))
      ensures var matched := InCategory(old(Stored()), category);
        matched != [] ==> (
          heading == Retitle(old(heading), Heading(cardHeadings, category)) &&
          (forall j | 0 <= j < active.Length :: active[j] == (FirstWith(filters, "all") == Some(j))) &&
          (container != null ==> container.nodes == Rendered(matched)))
    {
      if globalResources.None? || |globalResources.value| == 0 {
        return false;
      }
      var categoryResources := InCategory(globalResources.value, category);
      if |categoryResources| == 0 {
        return false;
      }
      if heading.Some? {
        heading := Some(Heading(cardHeadings, category));
      }
      ActivateOnly(FirstWith(filters, "all"));
      if container != null {
        RenderResourceCards(categoryResources, container);
        return true;
      }
      return false;
    }

    /**
     * A click on filter button `i`: a button without `data-filter` does
     * nothing. Otherwise the clicked button becomes the only active one and,
     * when the store holds records and there is a container, the first twelve
     * records of the chosen level are rendered.
     */
    method ClickFilter(i: nat)
      requires Valid() && i < |filters|
      modifies active, container
      ensures filters[i] == "" ==> (active[..] == old(active[..]) &&
        (container != null ==> container.nodes == old(container.nodes)))
      ensures filters[i] != "" ==> forall j | 0 <= j < active.Length :: active[j] == (j == i)
      ensures filters[i] != "" && Stored() != [] && container != null ==>
        container.nodes == Rendered(LevelSelection(Stored(), filters[i]))
      ensures Stored() == [] && container != null ==> container.nodes == old(container.nodes)
    {
      var filterValue := filters[i];
      if filterValue == "" {
        return;
      }
      ActivateOnly(Some(i));
      if globalResources.Some? && |globalResources.value| > 0 {
        var filteredResources := LevelSelection(globalResources.value, filterValue);
        if container != null {
          RenderResourceCards(filteredResources, container);
        }
      }
    }
  }
}
