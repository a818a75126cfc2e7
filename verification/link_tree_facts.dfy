/**
  What a walk's trace looks like: the validation messages, the depth-0 base case,
  the ordinals each node requests, where the fan-out stops, the indentation of
  subtrees, the pre-order layout and the bounds on lines and requests.
 */
module LinkTreeFacts {
  import opened LinkTree

  /** Console output and requests of a concatenation are the concatenations. */
  lemma {:induction false} TraceAppend(s: seq<Event>, t: seq<Event>)
    ensures Lines(s + t) == Lines(s) + Lines(t)
    ensures Requests(s + t) == Requests(s) + Requests(t)
  {
    if s == [] {
      assert s + t == t;
    } else {
      assert (s + t)[0] == s[0];
      assert (s + t)[1..] == s[1..] + t;
      TraceAppend(s[1..], t);
      var line := if s[0].Line? then [s[0].text] else [];
      var req := if s[0].Request? then [(s[0].article, s[0].ordinal)] else [];
      calc {
        Lines(s + t);
        line + Lines(s[1..] + t);
        line + (Lines(s[1..]) + Lines(t));
        (line + Lines(s[1..])) + Lines(t);
      }
      calc {
        Requests(s + t);
        req + Requests(s[1..] + t);
        req + (Requests(s[1..]) + Requests(t));
        (req + Requests(s[1..])) + Requests(t);
      }
    }
  }

  /** One turn of the fan-out loop: request ordinal `i`, then walk the link or stop. */
  lemma FanOutStep(links: Links, article: string, depth: int, follow: int, indentation: nat, i: nat)
    requires depth > 0 && i < follow
    ensures var link := LinkAt(links, article, i);
            FanOut(links, article, depth, follow, indentation, i)
            == if Truthy(link)
               then [Request(article, i)] + Walk(links, link, Num(depth - 1), Num(follow), indentation + 1)
                    + FanOut(links, article, depth, follow, indentation, i + 1)
               else [Request(article, i)]
  {
  }

  /**
    Moving a finished step from the pending part of a trace to the done part.
    Dafny knows this already; stating it as a separate step keeps the proofs
    that use it fast.
   */
  lemma Advance<T>(done: seq<T>, step: seq<T>, pending: seq<T>)
    ensures done + (step + pending) == (done + step) + pending
  {
  }

  /** A call with a valid article and numbers is its node. */
  lemma WalkNode(links: Links, article: string, depth: int, follow: int, indentation: nat)
    requires article != ""
    ensures Walk(links, Str(article), Num(depth), Num(follow), indentation) == Node(links, article, depth, follow, indentation)
  {
  }

  /** A node with depth left prints its line and then fans out from ordinal 0. */
  lemma NodeFanOut(links: Links, article: string, depth: int, follow: int, indentation: nat)
    requires depth > 0
    ensures Node(links, article, depth, follow, indentation)
         == [Line(FormatLine(article, indentation))] + FanOut(links, article, depth, follow, indentation, 0)
  {
  }

  /** A link found at ordinal `i`: its request, its whole subtree, then the rest of the fan-out. */
  lemma FanOutChild(links: Links, article: string, depth: int, follow: int, indentation: nat, i: nat)
    requires depth > 0 && i < follow && Truthy(LinkAt(links, article, i))
    ensures LinkAt(links, article, i).Str? && LinkAt(links, article, i).s != ""
    ensures FanOut(links, article, depth, follow, indentation, i)
         == [Request(article, i)] + Node(links, LinkAt(links, article, i).s, depth - 1, follow, indentation + 1)
            + FanOut(links, article, depth, follow, indentation, i + 1)
  {
    var child := LinkAt(links, article, i).s;
    var req := [Request(article, i)];
    var sub := Node(links, child, depth - 1, follow, indentation + 1);
    var rest := FanOut(links, article, depth, follow, indentation, i + 1);
    WalkNode(links, child, depth - 1, follow, indentation + 1);
    assert FanOut(links, article, depth, follow, indentation, i) == req + (sub + rest);
    Advance(req, sub, rest);
  }

  /** No link at ordinal `i`: the request is the last event of the fan-out. */
  lemma FanOutEnd(links: Links, article: string, depth: int, follow: int, indentation: nat, i: nat)
    requires depth > 0 && i < follow && !Truthy(LinkAt(links, article, i))
    ensures FanOut(links, article, depth, follow, indentation, i) == [Request(article, i)]
  {
  }

  /** A missing, empty or non-string article prints only the first error message. */
  lemma InvalidArticle(links: Links, articleUrl: Value, linkDepth: Value, followLinks: Value, indentation: nat)
    requires !IsArticle(articleUrl)
    ensures Lines(Walk(links, articleUrl, linkDepth, followLinks, indentation)) == [ArticleError]
    ensures Requests(Walk(links, articleUrl, linkDepth, followLinks, indentation)) == []
  {
  }

  /** A non-number depth or fan-out (after defaults) prints only the second error message. */
  lemma InvalidNumbers(links: Links, articleUrl: Value, linkDepth: Value, followLinks: Value, indentation: nat)
    requires IsArticle(articleUrl)
    requires !WithDefault(linkDepth, 1).Num? || !WithDefault(followLinks, 1).Num?
    ensures Lines(Walk(links, articleUrl, linkDepth, followLinks, indentation)) == [NumberError]
    ensures Requests(Walk(links, articleUrl, linkDepth, followLinks, indentation)) == []
  {
  }

  /** Omitted depth and fan-out behave as 1 and 1. */
  lemma Defaults(links: Links, articleUrl: Value, indentation: nat)
    ensures Walk(links, articleUrl, Undefined, Undefined, indentation)
         == Walk(links, articleUrl, Num(1), Num(1), indentation)
  {
  }

  /** With valid arguments the first event is the article's own line at its indentation. */
  lemma FirstLine(links: Links, article: string, depth: int, follow: int, indentation: nat)
    requires article != ""
    ensures var trace := Walk(links, Str(article), Num(depth), Num(follow), indentation);
            |trace| > 0 && trace[0] == Line(FormatLine(article, indentation))
            && |Lines(trace)| > 0 && Lines(trace)[0] == FormatLine(article, indentation)
  {
    var trace := Walk(links, Str(article), Num(depth), Num(follow), indentation);
    assert trace == Node(links, article, depth, follow, indentation);
    TraceAppend([trace[0]], trace[1..]);
    assert [trace[0]] + trace[1..] == trace;
  }

  /** Depth used up: exactly one line and no call to `getLink`. */
  lemma DepthZero(links: Links, article: string, depth: int, follow: int, indentation: nat)
    requires article != "" && depth <= 0
    ensures Lines(Walk(links, Str(article), Num(depth), Num(follow), indentation)) == [FormatLine(article, indentation)]
    ensures Requests(Walk(links, Str(article), Num(depth), Num(follow), indentation)) == []
  {
  }

  /** A fan-out limit of zero or less: exactly one line and no call to `getLink`. */
  lemma NoFollow(links: Links, article: string, depth: int, follow: int, indentation: nat)
    requires article != "" && follow <= 0
    ensures Lines(Walk(links, Str(article), Num(depth), Num(follow), indentation)) == [FormatLine(article, indentation)]
    ensures Requests(Walk(links, Str(article), Num(depth), Num(follow), indentation)) == []
  {
    var line := Line(FormatLine(article, indentation));
    if depth > 0 {
      assert FanOut(links, article, depth, follow, indentation, 0) == [];
    }
    assert Walk(links, Str(article), Num(depth), Num(follow), indentation) == [line] + [];
    assert Lines([line]) == [line.text] + Lines([]);
    assert Requests([line]) == [] + Requests([]);
  }

  /** A node's trace is its reference pre-order tree. */
  lemma {:induction false} NodeTree(links: Links, article: string, depth: int, follow: int, indentation: nat)
    ensures Node(links, article, depth, follow, indentation) == Tree(links, article, depth, follow, indentation)
    decreases if depth > 0 then depth else 0, 1, 0, 0
  {
    if depth > 0 {
      NodeFanOut(links, article, depth, follow, indentation);
      FanOutShape(links, article, depth, follow, indentation, 0);
    }
  }

  /** The fan-out from ordinal `i` is the trees of the followed links in order, then the failed request. */
  lemma {:induction false} FanOutShape(links: Links, article: string, depth: int, follow: int, indentation: nat, i: nat)
    requires depth > 0
    ensures var children := FollowedFrom(links, article, follow, i);
            FanOut(links, article, depth, follow, indentation, i)
            == Siblings(links, article, i, children, depth, follow, indentation) + Stop(article, i + |children|, follow)
    decreases depth, 0, if i < follow then follow - i else 0, 1
  {
    if i < follow {
      if Truthy(LinkAt(links, article, i)) {
        ChildShape(links, article, depth, follow, indentation, i);
      } else {
        FanOutEnd(links, article, depth, follow, indentation, i);
      }
    }
  }

  /** FanOutShape at an ordinal whose link is followed. */
  lemma {:induction false} ChildShape(links: Links, article: string, depth: int, follow: int, indentation: nat, i: nat)
    requires depth > 0 && i < follow && Truthy(LinkAt(links, article, i))
    ensures var children := FollowedFrom(links, article, follow, i);
            FanOut(links, article, depth, follow, indentation, i)
            == Siblings(links, article, i, children, depth, follow, indentation) + Stop(article, i + |children|, follow)
    decreases depth, 0, follow - i, 0, 1
  {
    ChildTree(links, article, depth, follow, indentation, i);
    SiblingsStep(links, article, depth, follow, indentation, i);
    FanOutShape(links, article, depth, follow, indentation, i + 1);
  }

  /** FanOutChild with the child's node replaced by its tree. */
  lemma {:induction false} ChildTree(links: Links, article: string, depth: int, follow: int, indentation: nat, i: nat)
    requires depth > 0 && i < follow && Truthy(LinkAt(links, article, i))
    ensures FanOut(links, article, depth, follow, indentation, i)
         == [Request(article, i)] + Tree(links, LinkAt(links, article, i).s, depth - 1, follow, indentation + 1)
            + FanOut(links, article, depth, follow, indentation, i + 1)
    decreases depth, 0, follow - i, 0, 0
  {
    NodeTree(links, LinkAt(links, article, i).s, depth - 1, follow, indentation + 1);
    FanOutChild(links, article, depth, follow, indentation, i);
  }

  /** The layout from a followed ordinal `i`: its request, its link's tree, then the layout from `i + 1`. */
  lemma SiblingsStep(links: Links, article: string, depth: int, follow: int, indentation: nat, i: nat)
    requires depth > 0 && i < follow && Truthy(LinkAt(links, article, i))
    ensures var children := FollowedFrom(links, article, follow, i);
            var rest := FollowedFrom(links, article, follow, i + 1);
            Siblings(links, article, i, children, depth, follow, indentation) + Stop(article, i + |children|, follow)
            == [Request(article, i)] + Tree(links, LinkAt(links, article, i).s, depth - 1, follow, indentation + 1)
               + (Siblings(links, article, i + 1, rest, depth, follow, indentation) + Stop(article, i + 1 + |rest|, follow))
  {
    var children := FollowedFrom(links, article, follow, i);
    var rest := FollowedFrom(links, article, follow, i + 1);
    assert children == [LinkAt(links, article, i).s] + rest;
    assert children[1..] == rest;
    var head := [Request(article, i)] + Tree(links, LinkAt(links, article, i).s, depth - 1, follow, indentation + 1);
    var siblings := Siblings(links, article, i + 1, rest, depth, follow, indentation);
    assert Siblings(links, article, i, children, depth, follow, indentation) == head + siblings;
    Advance(head, siblings, Stop(article, i + |children|, follow));
  }

  /**
    Pre-order and sequential fan-out: a call with valid arguments produces its
    reference tree. It prints its line; then, with depth left, for each
    followed link k in order it requests ordinal k and emits that child's whole
    tree at depth - 1 and indentation + 1 with the same fan-out limit, before
    requesting k + 1; finally it makes one more request only if it stopped at a
    missing link before reaching `follow`.
   */
  lemma PreOrder(links: Links, article: string, depth: int, follow: int, indentation: nat)
    requires article != ""
    ensures Walk(links, Str(article), Num(depth), Num(follow), indentation) == Tree(links, article, depth, follow, indentation)
  {
    WalkNode(links, article, depth, follow, indentation);
    NodeTree(links, article, depth, follow, indentation);
  }

  /** Every event is either a console line or a `getLink` call. */
  lemma {:induction false} Partition(trace: seq<Event>)
    ensures |Lines(trace)| + |Requests(trace)| == |trace|
  {
    if trace != [] {
      Partition(trace[1..]);
    }
  }

  /**
    The followed links from ordinal `i` are exactly the links found at `i`,
    `i + 1`, ..., all non-empty, ending below `follow` and, if before
    `follow`, at an ordinal whose link is missing or empty.
   */
  lemma {:induction false} FollowedRun(links: Links, article: string, follow: int, i: nat)
    ensures var children := FollowedFrom(links, article, follow, i);
            (i + |children| <= follow || children == [])
            && (forall j :: 0 <= j < |children| ==> children[j] != "" && LinkAt(links, article, i + j) == Str(children[j]))
            && (i + |children| < follow ==> !Truthy(LinkAt(links, article, i + |children|)))
    decreases if i < follow then follow - i else 0
  {
    var children := FollowedFrom(links, article, follow, i);
    if i < follow && IsArticle(LinkAt(links, article, i)) {
      var rest := FollowedFrom(links, article, follow, i + 1);
      FollowedRun(links, article, follow, i + 1);
      assert children == [LinkAt(links, article, i).s] + rest;
      forall j | 0 <= j < |children|
        ensures children[j] != "" && LinkAt(links, article, i + j) == Str(children[j])
      {
        if j > 0 {
          assert children[j] == rest[j - 1];
        }
      }
    }
  }

  /** The ordinals one node requests number at most `follow`, and none when `follow <= 0`. */
  lemma OrdinalsPerNode(links: Links, article: string, follow: int)
    ensures var asked := |Followed(links, article, follow)| + |Stop(article, |Followed(links, article, follow)|, follow)|;
            asked <= FollowMeasure(Num(follow))
            && (follow <= 0 ==> asked == 0)
  {
    FollowedRun(links, article, follow, 0);
  }

  /** Every line starts with at least `2 * n` spaces. */
  predicate AllIndented(lines: seq<string>, n: nat) {
    forall k :: 0 <= k < |lines| ==> Indented(lines[k], n)
  }

  lemma AllIndentedAppend(a: seq<string>, b: seq<string>, n: nat)
    requires AllIndented(a, n) && AllIndented(b, n)
    ensures AllIndented(a + b, n)
  {
    forall k | 0 <= k < |a + b| ensures Indented((a + b)[k], n) {
      if k >= |a| {
        assert (a + b)[k] == b[k - |a|];
      }
    }
  }

  /** Every line of a fan-out at `indentation` is indented by at least `indentation + 1` levels. */
  lemma {:induction false} FanOutIndented(links: Links, article: string, depth: int, follow: int, indentation: nat, i: nat)
    requires depth > 0
    ensures AllIndented(Lines(FanOut(links, article, depth, follow, indentation, i)), indentation + 1)
    decreases depth, 0, if i < follow then follow - i else 0, 1
  {
    if i < follow {
      if Truthy(LinkAt(links, article, i)) {
        ChildIndented(links, article, depth, follow, indentation, i);
      } else {
        FanOutEnd(links, article, depth, follow, indentation, i);
        assert Lines([Request(article, i)]) == [] + Lines([]);
      }
    }
  }

  /** Lines of a request, a subtree and the rest of a fan-out: indented when both parts are. */
  lemma JoinIndented(req: seq<Event>, sub: seq<Event>, rest: seq<Event>, n: nat)
    requires Lines(req) == [] && AllIndented(Lines(sub), n) && AllIndented(Lines(rest), n)
    ensures AllIndented(Lines(req + sub + rest), n)
  {
    TraceAppend(req + sub, rest);
    TraceAppend(req, sub);
    AllIndentedAppend(Lines(sub), Lines(rest), n);
  }

  /** FanOutIndented at an ordinal whose link is followed. */
  lemma {:induction false} ChildIndented(links: Links, article: string, depth: int, follow: int, indentation: nat, i: nat)
    requires depth > 0 && i < follow && Truthy(LinkAt(links, article, i))
    ensures AllIndented(Lines(FanOut(links, article, depth, follow, indentation, i)), indentation + 1)
    decreases depth, 0, follow - i, 0
  {
    var child := LinkAt(links, article, i).s;
    var deeper: nat, next: nat := indentation + 1, i + 1;
    var req := [Request(article, i)];
    assert Lines(req) == [] + Lines([]);
    NodeIndented(links, child, depth - 1, follow, deeper);
    FanOutIndented(links, article, depth, follow, indentation, next);
    JoinIndented(req, Node(links, child, depth - 1, follow, deeper), FanOut(links, article, depth, follow, indentation, next), deeper);
    FanOutChild(links, article, depth, follow, indentation, i);
  }

  /** A node's first line is its own; every later line is at least one indentation level deeper than the node's level. */
  lemma {:induction false} NodeIndented(links: Links, article: string, depth: int, follow: int, indentation: nat)
    ensures var lines := Lines(Node(links, article, depth, follow, indentation));
            |lines| > 0 && lines[0] == FormatLine(article, indentation)
            && AllIndented(lines[1..], indentation + 1)
            && AllIndented(lines, indentation)
    decreases if depth > 0 then depth else 0, 1, 0
  {
    var head := [Line(FormatLine(article, indentation))];
    assert Lines(head) == [FormatLine(article, indentation)] + Lines([]);
    var lines := Lines(Node(links, article, depth, follow, indentation));
    if depth <= 0 {
      assert Node(links, article, depth, follow, indentation) == head;
    } else {
      var rest := FanOut(links, article, depth, follow, indentation, 0);
      FanOutIndented(links, article, depth, follow, indentation, 0);
      TraceAppend(head, rest);
      assert lines[1..] == Lines(rest);
    }
    assert lines == [lines[0]] + lines[1..];
    AllIndentedAppend([lines[0]], lines[1..], indentation);
  }

  /** Every line beneath the seed article is at least one indentation level (two spaces) deeper than the seed's level. */
  lemma WalkIndented(links: Links, article: string, depth: int, follow: int, indentation: nat)
    requires article != ""
    ensures var lines := Lines(Walk(links, Str(article), Num(depth), Num(follow), indentation));
            |lines| > 0 && lines[0] == FormatLine(article, indentation)
            && AllIndented(lines[1..], indentation + 1)
  {
    NodeIndented(links, article, depth, follow, indentation);
  }

  lemma {:induction false} FullTreePositive(b: nat, d: nat)
    ensures FullTree(b, d) >= 1
  {
    if d > 0 {
      FullTreePositive(b, d - 1);
    }
  }

  lemma {:induction false} CopiesProduct(n: nat, g: nat)
    ensures Copies(n, g) == n * g
  {
    if n > 0 {
      CopiesProduct(n - 1, g);
    }
  }

  /** Counted root first or level by level, a full tree has 1 + b + ... + b^d nodes. */
  lemma {:induction false} FullTreeGeo(b: nat, d: nat)
    ensures FullTree(b, d) == Geo(b, d)
  {
    if d > 0 {
      FullTreeGeo(b, d - 1);
      CopiesProduct(b, Geo(b, d - 1));
      GeoStep(b, d);
    }
  }

  /** Horner form of the geometric sum: 1 + b + ... + b^d == 1 + b * (1 + ... + b^(d-1)). */
  lemma {:induction false} GeoStep(b: nat, d: nat)
    requires d > 0
    ensures Geo(b, d) == 1 + b * Geo(b, d - 1)
  {
    if d > 1 {
      GeoStep(b, d - 1);
      calc {
        Geo(b, d);
        Geo(b, d - 1) + Pow(b, d);
        1 + b * Geo(b, d - 2) + b * Pow(b, d - 1);
        1 + b * (Geo(b, d - 2) + Pow(b, d - 1));
        1 + b * Geo(b, d - 1);
      }
    } else {
      assert Pow(b, 1) == b * Pow(b, 0);
    }
  }

  /** Bounds add up over a request, a subtree and the rest of a fan-out. */
  lemma JoinBound(req: seq<Event>, sub: seq<Event>, rest: seq<Event>, g: nat, c: nat)
    requires Lines(req) == [] && |Requests(req)| == 1
    requires |Lines(sub)| <= g && |Requests(sub)| < g
    requires |Lines(rest)| <= c && |Requests(rest)| <= c
    ensures |Lines(req + sub + rest)| <= g + c && |Requests(req + sub + rest)| <= g + c
  {
    TraceAppend(req + sub, rest);
    TraceAppend(req, sub);
  }

  /** A fan-out with n ordinals left prints and requests at most n full subtrees' worth. */
  lemma {:induction false} FanOutBound(links: Links, article: string, depth: int, follow: int, indentation: nat, i: nat)
    requires depth > 0
    ensures var g := FullTree(FollowMeasure(Num(follow)), depth - 1);
            var n := if i < follow then follow - i else 0;
            var trace := FanOut(links, article, depth, follow, indentation, i);
            |Lines(trace)| <= Copies(n, g) && |Requests(trace)| <= Copies(n, g)
    decreases depth, 0, if i < follow then follow - i else 0, 1
  {
    if i < follow {
      if Truthy(LinkAt(links, article, i)) {
        ChildBound(links, article, depth, follow, indentation, i);
      } else {
        FanOutEnd(links, article, depth, follow, indentation, i);
        assert Lines([Request(article, i)]) == [] + Lines([]);
        assert Requests([Request(article, i)]) == [(article, i)] + Requests([]);
        FullTreePositive(FollowMeasure(Num(follow)), depth - 1);
      }
    }
  }

  /** FanOutBound at an ordinal whose link is followed. */
  lemma {:induction false} ChildBound(links: Links, article: string, depth: int, follow: int, indentation: nat, i: nat)
    requires depth > 0 && i < follow && Truthy(LinkAt(links, article, i))
    ensures var g := FullTree(FollowMeasure(Num(follow)), depth - 1);
            var trace := FanOut(links, article, depth, follow, indentation, i);
            |Lines(trace)| <= Copies(follow - i, g) && |Requests(trace)| <= Copies(follow - i, g)
    decreases depth, 0, follow - i, 0
  {
    var child := LinkAt(links, article, i).s;
    var deeper: nat, next: nat, left: nat := indentation + 1, i + 1, follow - i - 1;
    var g := FullTree(FollowMeasure(Num(follow)), depth - 1);
    var req := [Request(article, i)];
    assert Lines(req) == [] + Lines([]) && Requests(req) == [(article, i)] + Requests([]);
    NodeBound(links, child, depth - 1, follow, deeper);
    assert DepthMeasure(Num(depth - 1)) == depth - 1;
    FanOutBound(links, article, depth, follow, indentation, next);
    assert (if next < follow then follow - next else 0) == left;
    JoinBound(req, Node(links, child, depth - 1, follow, deeper),
              FanOut(links, article, depth, follow, indentation, next), g, Copies(left, g));
    FanOutChild(links, article, depth, follow, indentation, i);
  }

  /** A node at depth d and fan-out b prints at most as many lines as a full b-ary tree of depth d has nodes, and makes fewer requests. */
  lemma {:induction false} NodeBound(links: Links, article: string, depth: int, follow: int, indentation: nat)
    ensures var b := FollowMeasure(Num(follow));
            var d := DepthMeasure(Num(depth));
            var trace := Node(links, article, depth, follow, indentation);
            |Lines(trace)| <= FullTree(b, d) && |Requests(trace)| < FullTree(b, d)
    decreases if depth > 0 then depth else 0, 1, 0
  {
    var head := [Line(FormatLine(article, indentation))];
    assert Lines(head) == [FormatLine(article, indentation)] && Requests(head) == [];
    if depth > 0 {
      var rest := FanOut(links, article, depth, follow, indentation, 0);
      NodeFanOut(links, article, depth, follow, indentation);
      FanOutBound(links, article, depth, follow, indentation, 0);
      TraceAppend(head, rest);
    }
  }

  /**
    Whatever the arguments, one call prints at most sum_{k=0}^{d} b^k lines and
    calls `getLink` fewer times than that, for the effective depth d and fan-out b.
   */
  lemma WalkBound(links: Links, articleUrl: Value, linkDepth: Value, followLinks: Value, indentation: nat)
    ensures var b := FollowMeasure(followLinks);
            var d := DepthMeasure(linkDepth);
            var trace := Walk(links, articleUrl, linkDepth, followLinks, indentation);
            |Lines(trace)| <= Geo(b, d) && |Requests(trace)| < Geo(b, d)
  {
    FullTreeGeo(FollowMeasure(followLinks), DepthMeasure(linkDepth));
    FullTreePositive(FollowMeasure(followLinks), DepthMeasure(linkDepth));
    if IsArticle(articleUrl) && WithDefault(linkDepth, 1).Num? && WithDefault(followLinks, 1).Num? {
      NodeBound(links, articleUrl.s, WithDefault(linkDepth, 1).n, WithDefault(followLinks, 1).n, indentation);
    }
  }
}
