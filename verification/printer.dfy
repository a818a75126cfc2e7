/**
  The imperative program of index.js: `printLink` and the recursive, sequential
  `printLinkTree`, run against a `World` that holds the console and the link
  source. `PrintLinkTree` is proved to append exactly the trace given by
  LinkTree.Walk and `FollowLinks` exactly the trace given by LinkTree.FanOut;
  `Log`, `GetLink` and `PrintLink` append one event each.
 */
module Printer {
  import opened LinkTree
  import LinkTreeFacts

  /**
    The environment the script runs in: the console it writes to and the link
    source it asks. `trace` records, in order, every console line and every
    `getLink` call; `output` is what the console shows.
   */
  class World {
    const links: Links
    var output: seq<string>
    ghost var trace: seq<Event>

    ghost predicate Valid()
      reads this
    {
      output == Lines(trace)
    }

    constructor (links: Links)
      ensures Valid() && this.links == links
      ensures output == [] && trace == []
    {
      this.links := links;
      output := [];
      trace := [];
    }

    /** `console.log(text)` */
    method Log(text: string)
      requires Valid()
      modifies this
      ensures Valid()
      ensures trace == old(trace) + [Line(text)]
      ensures output == old(output) + [text]
    {
      LinkTreeFacts.TraceAppend(trace, [Line(text)]);
      assert Lines([Line(text)]) == [text] + Lines([]);
      output := output + [text];
      trace := trace + [Line(text)];
    }

    /** `await getLink(article, ordinal)`: the link at that ordinal, or `undefined`. */
    method GetLink(article: string, ordinal: nat) returns (link: Value)
      requires Valid()
      modifies this
      ensures Valid()
      ensures link == LinkAt(links, article, ordinal)
      ensures link == Undefined || (article in links && ordinal < |links[article]| && link == Str(links[article][ordinal]))
      ensures trace == old(trace) + [Request(article, ordinal)]
      ensures output == old(output)
    {
      LinkTreeFacts.TraceAppend(trace, [Request(article, ordinal)]);
      assert Lines([Request(article, ordinal)]) == [] + Lines([]);
      if article in links && ordinal < |links[article]| {
        link := Str(links[article][ordinal]);
      } else {
        link := Undefined;
      }
      trace := trace + [Request(article, ordinal)];
    }
  }

  /** `printLink(link, indentation)`: the link behind two spaces per indentation level. */
  method PrintLink(w: World, link: string, indentation: nat)
    requires w.Valid()
    modifies w
    ensures w.Valid()
    ensures w.trace == old(w.trace) + [Line(FormatLine(link, indentation))]
    ensures w.output == old(w.output) + [FormatLine(link, indentation)]
  {
    var spaces := Spaces(indentation);
    w.Log(spaces + link);
  }

  /**
    `printLinkTree(articleUrl, linkDepth = 1, followLinks = 1, indentation = 0)`:
    validate the arguments, print the article, and unless the depth is used up
    follow its links.
   */
  method PrintLinkTree(w: World, articleUrl: Value, linkDepth: Value := Undefined, followLinks: Value := Undefined, indentation: nat := 0)
    requires w.Valid()
    modifies w
    ensures w.Valid()
    ensures w.trace == old(w.trace) + Walk(w.links, articleUrl, linkDepth, followLinks, indentation)
    ensures w.output == old(w.output) + Lines(Walk(w.links, articleUrl, linkDepth, followLinks, indentation))
    decreases DepthMeasure(linkDepth), 1
  {
    ghost var walk := Walk(w.links, articleUrl, linkDepth, followLinks, indentation);
    if !IsArticle(articleUrl) {
      w.Log(ArticleError);
      assert walk == [Line(ArticleError)];
    } else {
      var depth := WithDefault(linkDepth, 1);
      var follow := WithDefault(followLinks, 1);
      if !depth.Num? || !follow.Num? {
        w.Log(NumberError);
        assert walk == [Line(NumberError)];
      } else {
        ghost var head := [Line(FormatLine(articleUrl.s, indentation))];
        assert walk == Node(w.links, articleUrl.s, depth.n, follow.n, indentation);
        PrintLink(w, articleUrl.s, indentation);
        if 0 < depth.n {
          ghost var fanOut := FanOut(w.links, articleUrl.s, depth.n, follow.n, indentation, 0);
          assert walk == head + fanOut;
          FollowLinks(w, articleUrl.s, depth.n, follow.n, indentation);
          LinkTreeFacts.Advance(old(w.trace), head, fanOut);
        } else {
          assert walk == head;
        }
      }
    }
    LinkTreeFacts.TraceAppend(old(w.trace), walk);
  }

  /**
    The `for` loop of `printLinkTree`: ask for the links at ordinals 0, 1, ...
    below `followLinks`, walking each one found (one level deeper, one step
    further indented) before asking for the next, and stop at the first one
    missing.
   */
  method FollowLinks(w: World, article: string, linkDepth: int, followLinks: int, indentation: nat)
    requires w.Valid() && linkDepth > 0
    modifies w
    ensures w.Valid()
    ensures w.trace == old(w.trace) + FanOut(w.links, article, linkDepth, followLinks, indentation, 0)
    decreases linkDepth, 0
  {
    ghost var goal := old(w.trace) + FanOut(w.links, article, linkDepth, followLinks, indentation, 0);
    var i: nat := 0;
    while i < followLinks
      invariant w.Valid()
      invariant goal == w.trace + FanOut(w.links, article, linkDepth, followLinks, indentation, i)
      decreases followLinks - i
    {
      ghost var before := w.trace;
      ghost var step := [Request(article, i)];
      ghost var rest := FanOut(w.links, article, linkDepth, followLinks, indentation, i + 1);
      LinkTreeFacts.FanOutStep(w.links, article, linkDepth, followLinks, indentation, i);
      var wikiArticle := w.GetLink(article, i);
      if Truthy(wikiArticle) {
        ghost var child := Walk(w.links, wikiArticle, Num(linkDepth - 1), Num(followLinks), indentation + 1);
        assert goal == before + (step + child + rest);
        PrintLinkTree(w, wikiArticle, Num(linkDepth - 1), Num(followLinks), indentation + 1);
        LinkTreeFacts.Advance(before, step, child);
        LinkTreeFacts.Advance(before, step + child, rest);
        assert goal == w.trace + rest;
      } else {
        assert goal == w.trace;
        break;
      }
      i := i + 1;
    }
  }

  /** The link source of index.js as it stands: `getLink` is a stub that resolves to `undefined`. */
  const StubLinks: Links := map[]

  /** With the stub, the script prints only "Light" and asks for one link. */
  lemma StubRun()
    ensures Walk(StubLinks, Str("Light"), Num(2), Num(3), 0) == [Line("Light"), Request("Light", 0)]
    ensures Lines(Walk(StubLinks, Str("Light"), Num(2), Num(3), 0)) == ["Light"]
  {
    assert LinkAt(StubLinks, "Light", 0) == Undefined;
    assert FormatLine("Light", 0) == "Light";
    var trace := Walk(StubLinks, Str("Light"), Num(2), Num(3), 0);
    assert trace == [Line("Light"), Request("Light", 0)];
    assert Lines(trace) == ["Light"] + Lines([Request("Light", 0)]);
    assert Lines([Request("Light", 0)]) == [] + Lines([]);
  }

  /** The script's last line, `printLinkTree('Light', 2, 3)`. */
  method Script(w: World)
    requires w.Valid()
    modifies w
    ensures w.Valid()
    ensures w.output == old(w.output) + Lines(Walk(w.links, Str("Light"), Num(2), Num(3), 0))
    ensures w.links == map[] ==> w.output == old(w.output) + ["Light"]
  {
    PrintLinkTree(w, Str("Light"), Num(2), Num(3));
    if w.links == map[] {
      StubRun();
    }
  }
}
