/**
  The meaning of `printLinkTree` (index.js): the sequence of events one call
  produces, where an event is either a line written to the console or a request
  made to the link source `getLink`. The imperative walker in module Printer is
  proved to produce exactly this trace; the lemmas in module LinkTreeFacts state
  what the trace looks like.
 */
module LinkTree {

  /** A JavaScript value as `printLinkTree` may receive it (numbers are integers here). */
  datatype Value = Undefined | Null | Bool(b: bool) | Num(n: int) | Str(s: string)

  /** The falsy values of JavaScript, as far as `Value` can express them. */
  const Falsy: set<Value> := {Undefined, Null, Bool(false), Num(0), Str("")}

  /** JavaScript truthiness, as `!articleUrl` and `if (wikiArticle)` test it. */
  function Truthy(v: Value): (r: bool)
    ensures r <==> v !in Falsy
  {
    match v
    case Undefined => false
    case Null => false
    case Bool(b) => b
    case Num(n) => n != 0
    case Str(s) => s != ""
  }

  /** The first guard passes: the value is truthy and its `typeof` is 'string'. */
  function IsArticle(v: Value): (r: bool)
    ensures r <==> v.Str? && v.s != ""
  {
    Truthy(v) && v.Str?
  }

  /** A default parameter: JavaScript substitutes `default` for an `undefined` argument. */
  function WithDefault(v: Value, default: int): (r: Value)
    ensures !r.Undefined?
    ensures r.Num? <==> v.Undefined? || v.Num?
  {
    if v.Undefined? then Num(default) else v
  }

  const ArticleError := "Error! Call printLinkTree() with the url-name of a Wikipedia article."
  const NumberError := "Error! Arguments after the first one must be numbers."

  /** The link source: for each article, the links `getLink` returns at ordinals 0, 1, 2, ... */
  type Links = map<string, seq<string>>

  /** What `getLink(article, ordinal)` resolves to: a link, or `undefined` past the end. */
  function LinkAt(links: Links, article: string, ordinal: nat): (r: Value)
    ensures r.Undefined? || r.Str?
    ensures Truthy(r) <==> article in links && ordinal < |links[article]| && links[article][ordinal] != ""
  {
    if article in links && ordinal < |links[article]| then Str(links[article][ordinal]) else Undefined
  }

  /** One observable step of a walk: a console line, or a call `getLink(article, ordinal)`. */
  datatype Event = Line(text: string) | Request(article: string, ordinal: nat)

  /** `'  '.repeat(n)` */
  function Spaces(n: nat): (r: string)
    ensures |r| == 2 * n
    ensures forall j :: 0 <= j < |r| ==> r[j] == ' '
  {
    if n == 0 then "" else "  " + Spaces(n - 1)
  }

  /** The line starts with at least `2 * n` spaces. */
  predicate Indented(line: string, n: nat) {
    2 * n <= |line| && forall j :: 0 <= j < 2 * n ==> line[j] == ' '
  }

  /** The line `printLink(link, indentation)` writes. */
  function FormatLine(link: string, indentation: nat): (r: string)
    ensures Indented(r, indentation)
    ensures |r| == 2 * indentation + |link| && r[2 * indentation..] == link
  {
    Spaces(indentation) + link
  }

  /** How many more levels a call with this `linkDepth` argument may descend. */
  function DepthMeasure(linkDepth: Value): nat {
    var depth := WithDefault(linkDepth, 1);
    if depth.Num? && depth.n > 0 then depth.n else 0
  }

  /** The most ordinals a call with this `followLinks` argument may request per article. */
  function FollowMeasure(followLinks: Value): nat {
    var follow := WithDefault(followLinks, 1);
    if follow.Num? && follow.n > 0 then follow.n else 0
  }

  /** The trace of `printLinkTree(articleUrl, linkDepth, followLinks, indentation)`. */
  function Walk(links: Links, articleUrl: Value, linkDepth: Value, followLinks: Value, indentation: nat): (r: seq<Event>)
    ensures |r| > 0 && r[0].Line?
    decreases DepthMeasure(linkDepth), 2, 0
  {
    if !IsArticle(articleUrl) then [Line(ArticleError)]
    else
      var depth := WithDefault(linkDepth, 1);
      var follow := WithDefault(followLinks, 1);
      if !depth.Num? || !follow.Num? then [Line(NumberError)]
      else Node(links, articleUrl.s, depth.n, follow.n, indentation)
  }

  /** The trace of a call whose arguments passed validation: its own line, then its fan-out. */
  function Node(links: Links, article: string, depth: int, follow: int, indentation: nat): (r: seq<Event>)
    ensures |r| > 0 && r[0] == Line(FormatLine(article, indentation))
    ensures depth <= 0 ==> |r| == 1
    decreases if depth > 0 then depth else 0, 1, 0
  {
    [Line(FormatLine(article, indentation))]
    + if depth <= 0 then [] else FanOut(links, article, depth, follow, indentation, 0)
  }

  /** The `for` loop of `printLinkTree` from ordinal `i` on. */
  function FanOut(links: Links, article: string, depth: int, follow: int, indentation: nat, i: nat): (r: seq<Event>)
    requires depth > 0
    ensures r == [] <==> follow <= i
    ensures r != [] ==> r[0] == Request(article, i)
    decreases depth, 0, if i < follow then follow - i else 0
  {
    if follow <= i then []
    else
      var link := LinkAt(links, article, i);
      [Request(article, i)]
      + if Truthy(link)
        then Walk(links, link, Num(depth - 1), Num(follow), indentation + 1)
             + FanOut(links, article, depth, follow, indentation, i + 1)
        else []
  }

  /** The console output of a trace. */
  function Lines(trace: seq<Event>): seq<string> {
    if trace == [] then []
    else (if trace[0].Line? then [trace[0].text] else []) + Lines(trace[1..])
  }

  /** The `getLink` calls of a trace, in order. */
  function Requests(trace: seq<Event>): seq<(string, nat)> {
    if trace == [] then []
    else (if trace[0].Request? then [(trace[0].article, trace[0].ordinal)] else []) + Requests(trace[1..])
  }

  /**
    The links an article's node recurses into when ordinals `i`, `i + 1`, ...
    are requested below `follow`: the run of present, non-empty links from `i`,
    cut at `follow` or at the first missing link.
   */
  function FollowedFrom(links: Links, article: string, follow: int, i: nat): seq<string>
    decreases if i < follow then follow - i else 0
  {
    if follow <= i then []
    else
      var link := LinkAt(links, article, i);
      if IsArticle(link) then [link.s] + FollowedFrom(links, article, follow, i + 1) else []
  }

  /** The links an article's node recurses into, in order. */
  function Followed(links: Links, article: string, follow: int): seq<string> {
    FollowedFrom(links, article, follow, 0)
  }

  /**
    Reference pre-order tree, built from the followed links alone: the
    article's line and, with depth left, each followed link's own tree (one
    level deeper, one step further indented) behind the request for its
    ordinal, then the request that found no link, if any.
   */
  function Tree(links: Links, article: string, depth: int, follow: int, indentation: nat): seq<Event>
    decreases if depth > 0 then depth else 0, 1, 0
  {
    [Line(FormatLine(article, indentation))]
    + if depth <= 0 then []
      else
        var children := Followed(links, article, follow);
        Siblings(links, article, 0, children, depth, follow, indentation) + Stop(article, |children|, follow)
  }

  /** The trees of `children`, the followed links at ordinals `j`, `j + 1`, ..., each behind its request. */
  function Siblings(links: Links, article: string, j: nat, children: seq<string>, depth: int, follow: int, indentation: nat): seq<Event>
    requires depth > 0
    decreases depth, 0, |children|
  {
    if children == [] then []
    else
      [Request(article, j)] + Tree(links, children[0], depth - 1, follow, indentation + 1)
      + Siblings(links, article, j + 1, children[1..], depth, follow, indentation)
  }

  /** The closing request that found no link, if the loop stopped before `follow`. */
  function Stop(article: string, k: nat, follow: int): seq<Event> {
    if k < follow then [Request(article, k)] else []
  }

  /** `b^k` */
  function Pow(b: nat, k: nat): nat {
    if k == 0 then 1 else b * Pow(b, k - 1)
  }

  /** The sum of `b^k` for k from 0 to d: the nodes of a full b-ary tree of depth d. */
  function Geo(b: nat, d: nat): nat {
    if d == 0 then 1 else Geo(b, d - 1) + Pow(b, d)
  }

  /** `g + g + ... + g`, n times. */
  function Copies(n: nat, g: nat): nat {
    if n == 0 then 0 else g + Copies(n - 1, g)
  }

  /** The nodes of a full b-ary tree of depth d, counted root first: 1 + b copies of depth d - 1. */
  function FullTree(b: nat, d: nat): nat {
    if d == 0 then 1 else 1 + Copies(b, FullTree(b, d - 1))
  }
}
