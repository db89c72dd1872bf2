/**
  Navigation highlighting: on page load the last `/`-separated segment of the
  document path is compared with the `href` of every navigation link, and the
  matching links get the `active` class. The root path (last segment empty)
  matches the link to `index.html`.
 */
module Navigation {
  import opened JsText

  /** A navigation link: its `href` attribute (`null` when absent) and its class list. */
  datatype Link = Link(href: Option<string>, classes: set<string>)

  const ActiveClass: string := "active"
  const IndexPage: string := "index.html"

  /** `pathname.split("/").pop()`, as a reference definition. */
  function CurrentPage(path: string): string
  {
    Last(Split(path, '/'))
  }

  /**
    The same segment found by scanning back from the end of the path to the
    last `/`; it equals the reference definition.
   */
  method FindCurrentPage(path: string) returns (page: string)
    ensures page == CurrentPage(path)
    ensures '/' !in page
    ensures |page| <= |path| && path[|path| - |page|..] == page
  {
    var i := |path|;
    while i > 0 && path[i - 1] != '/'
      invariant 0 <= i <= |path|
      invariant '/' !in path[i..]
      decreases i
    {
      assert path[i - 1..] == [path[i - 1]] + path[i..];
      i := i - 1;
    }
    page := path[i..];
    if i > 0 {
      LastIndexUnique(path, '/', i - 1);
    }
  }

  /** A link is active when its `href` equals the page, or the page is the root and the link is the index. */
  predicate IsActive(link: Link, page: string)
  {
    link.href == Some(page) || (page == "" && link.href == Some(IndexPage))
  }

  /** Adds `active` to the class list of every matching link (`classList.add`). */
  function MarkActive(links: seq<Link>, page: string): (r: seq<Link>)
    ensures |r| == |links|
    ensures forall i :: 0 <= i < |r| ==> r[i].href == links[i].href
    ensures forall i :: 0 <= i < |r| ==>
      (ActiveClass in r[i].classes <==> ActiveClass in links[i].classes || IsActive(links[i], page))
    ensures forall i :: 0 <= i < |r| ==> r[i].classes - {ActiveClass} == links[i].classes - {ActiveClass}
  {
    seq(|links|, i requires 0 <= i < |links| =>
      if IsActive(links[i], page) then links[i].(classes := links[i].classes + {ActiveClass})
      else links[i])
  }

  /** Running the highlighter twice leaves the links as running it once. */
  lemma MarkActiveIdempotent(links: seq<Link>, page: string)
    ensures MarkActive(MarkActive(links, page), page) == MarkActive(links, page)
  {
  }

  /** On the root path `/` the page is empty, so the `index.html` link is highlighted. */
  lemma RootHighlightsIndex(links: seq<Link>, i: nat)
    requires i < |links| && links[i].href == Some(IndexPage)
    ensures ActiveClass in MarkActive(links, CurrentPage("/"))[i].classes
  {
  }

  /** A link whose `href` names the last path segment is highlighted, whatever directories precede it. */
  lemma SegmentHighlightsLink(dirs: seq<string>, file: string, links: seq<Link>, i: nat)
    requires |dirs| >= 1 && forall k :: 0 <= k < |dirs| ==> '/' !in dirs[k]
    requires '/' !in file
    requires i < |links| && links[i].href == Some(file)
    ensures ActiveClass in MarkActive(links, CurrentPage(Join(dirs + [file], '/')))[i].classes
  {
    var parts := dirs + [file];
    SplitJoin(parts, '/');
  }
}
