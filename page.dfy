/**
 * What the scripts put on the page, as values: resource cards and the
 * single-line placeholders shown instead of them, plus the document store
 * that stands in for `fetch`.
 */
module Page {
  import opened Wrappers
  import opened JsStrings

  /** One resource card: its CSS class list, image URL, title, description, tag labels and link. */
  datatype Card = Card(
    className: string,
    image: string,
    title: string,
    description: string,
    tags: seq<string>,
    url: string)

  /** A child of the resources container. */
  datatype Node =
    | CardNode(card: Card)
    | NoResources(text: string)
    | LoadError(text: string)

  /**
   * The files the site serves, by path. A path missing from the map is a
   * fetch that fails (a network error or a response that is not `ok`).
   */
  type Documents = map<string, string>

  /** The body a fetch of `path` yields, or `None` when it fails. */
  function Fetch(docs: Documents, path: string): (r: Option<string>)
    ensures r.Some? <==> path in docs
    ensures r.Some? ==> r.value == docs[path]
  {
    if path in docs then Some(docs[path]) else None
  }

  /**
   * `element.classList.contains(token)`: the token is one of the
   * space-separated words of the class attribute.
   */
  predicate HasClass(className: string, token: string) {
    token != "" && token in Split(className, " ")
  }

  /** A class attribute of two space-free words has exactly those two as its classes. */
  lemma TwoClasses(a: string, b: string, t: string)
    requires ' ' !in a && ' ' !in b
    ensures HasClass(a + " " + b, t) <==> t != "" && (t == a || t == b)
  {
    SplitAfter(a, " ", b);
    SplitNone(b, " ");
  }

  /** The text of the resources heading after setting it to `title`; `None` is a page without that element. */
  function Retitle(heading: Option<string>, title: string): (r: Option<string>)
    ensures r.Some? <==> heading.Some?
    ensures r.Some? ==> r.value == title
  {
    if heading.Some? then Some(title) else None
  }

  /** The resources container; its children are replaced by the render operations. */
  class Container {
    var nodes: seq<Node>

    constructor ()
      ensures nodes == []
    {
      nodes := [];
    }
  }
}
