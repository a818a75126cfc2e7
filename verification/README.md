# wikilink-printer: the link-tree walker

wikilink-printer prints the link tree of a Wikipedia article. `printLinkTree(articleUrl, linkDepth = 1, followLinks = 1, indentation = 0)` in index.js does four things in order:

1. It checks its arguments.
2. It prints the article behind two spaces per indentation level (`printLink`).
3. It stops if the depth is used up.
4. Otherwise it asks `getLink(articleUrl, i)` for the links at ordinals 0, 1, 2, … below `followLinks`. It walks each link it gets, one level deeper and one step further indented, before asking for the next. The fan-out stops at the first link that is missing.

The script ends with `printLinkTree('Light', 2, 3)`.

This project models that walker in Dafny and proves what its output looks like.

- `LinkTree` (link_tree.dfy) holds the values the walker works on.
  - Arguments are JavaScript values `Value`, so truthiness, `typeof` and default parameters can be expressed.
  - The link source is a map from an article to its links.
  - The console is a sequence of lines.
  - `Walk`, `Node` and `FanOut` give the exact trace of one call: its console lines and its `getLink` calls, interleaved in the order they happen.
  - `Tree`, `Siblings` and `Stop` are a reference pre-order tree. It is built from the followed links alone (`Followed`), without the loop, and `PreOrder` proves that `Walk` equals it.
- `LinkTreeFacts` (link_tree_facts.dfy) proves the properties of the trace:
  - the two validation failures;
  - the depth-0 base case;
  - the ordinals requested per node, and where the fan-out stops;
  - the indentation of every subtree;
  - the pre-order layout;
  - a bound on lines and `getLink` calls.
- `Printer` (printer.dfy) is the imperative program.
  - A `World` object holds the link source, the console output and a ghost record of the trace.
  - `PrintLink` and `PrintLinkTree` (recursive) write to it.
  - `FollowLinks` is the `for` loop with its `break`.
  - `PrintLinkTree` is proved to append exactly the trace `Walk` describes, and `FollowLinks` exactly the trace `FanOut` describes.
  - `Log`, `GetLink` and `PrintLink` are proved to append exactly one event each; `Script` states the output of the script's last line.
  - `StubRun` works out the script's own call `printLinkTree('Light', 2, 3)` against the stub `getLink` of index.js, which always resolves to `undefined`.
- `Scenarios` (scenarios.dfy) works out the same call against a small link source with three links from "Light".

Some details of index.js shape the model:

- Any falsy link ends the fan-out, including an empty string. A missing link (`undefined`) is only one case.
- Negative numbers are not rejected. A depth of 0 or less prints the article and stops. A `followLinks` of 0 or less prints the article and makes no `getLink` call.
- Indentation is always two spaces per level. There is no configurable step.

## Model

| member | source | states |
|---|---|---|
| LinkTree.Spaces | index.js:8 | `'  '.repeat(n)` is 2·n characters, all spaces |
| LinkTree.FormatLine | index.js:7-10 | the printed line is the link behind exactly 2·indentation spaces: its length is 2·indentation + the link's length, and its suffix after the spaces is the link |
| LinkTree.Truthy | index.js:13-27 | a value is truthy exactly when it is not one of `undefined`, `null`, `false`, `0` and `''` |
| LinkTree.IsArticle | index.js:13 | the first guard lets a value through exactly when it is a non-empty string |
| LinkTree.WithDefault | index.js:12 | a defaulted parameter is never `undefined`, and it is a number exactly when the argument was omitted or was a number, so an omitted depth or fan-out always passes the number guard |
| LinkTree.LinkAt | index.js:3-5 | `getLink` resolves to a string or `undefined`, and its answer is truthy exactly when the article is known, the ordinal is below its number of links and the link there is not the empty string |
| LinkTree.Walk | index.js:12-33 | every call, valid or not, starts by printing a console line before any `getLink` call |
| LinkTree.Node | index.js:21-22 | a node's first event is its article's formatted line; with depth ≤ 0 that line is its only event |
| LinkTree.FanOut | index.js:24-32 | the loop from ordinal i does nothing exactly when i ≥ `followLinks`; otherwise it starts by requesting ordinal i |
| LinkTreeFacts.Partition | index.js:9-25 | every event is a console line or a `getLink` call: the lines plus the calls number exactly the events |
| LinkTreeFacts.InvalidArticle | index.js:13-16 | a missing, falsy or non-string article prints exactly the first error message and calls `getLink` never |
| LinkTreeFacts.InvalidNumbers | index.js:17-20 | a valid article with a non-number depth or fan-out (after defaults) prints exactly the second error message and calls `getLink` never |
| LinkTreeFacts.FirstLine | index.js:21 | with valid arguments the first event, and the first console line, is the article behind 2·indentation spaces |
| LinkTreeFacts.DepthZero | index.js:21-22 | with depth ≤ 0 exactly one line is printed and `getLink` is never called |
| LinkTreeFacts.NoFollow | index.js:24 | with `followLinks` ≤ 0 exactly one line is printed and `getLink` is never called |
| LinkTreeFacts.FollowedRun | index.js:24-31 | the followed links are exactly the run of non-empty links at consecutive ordinals from i, below `followLinks`, ended by a missing or empty link if it ends before `followLinks` |
| LinkTreeFacts.OrdinalsPerNode | index.js:24-25 | one node asks for at most `followLinks` ordinals, and for none when `followLinks` ≤ 0 |
| LinkTreeFacts.PreOrder | index.js:21-32 | a call with valid arguments equals the reference pre-order `Tree`: its line, then for each followed link k in order the request for ordinal k and that child's whole tree, then the one failed request if the loop stopped before `followLinks`; a sibling is requested only after the previous subtree is complete |
| LinkTreeFacts.NodeTree | index.js:21-32 | a node's trace equals its reference pre-order tree |
| LinkTreeFacts.FanOutShape | index.js:24-32 | the fan-out from ordinal i equals the pre-order layout of the followed links, then one request for the ordinal that found no link (only if the loop stopped before `followLinks`) |
| LinkTreeFacts.ChildShape | index.js:27-28 | FanOutShape at an ordinal whose link is followed |
| LinkTreeFacts.ChildTree | index.js:27-28 | a followed link at ordinal i contributes its request, then that link's reference tree one level deeper, then the rest of the loop |
| LinkTreeFacts.SiblingsStep | index.js:24-28 | in the reference layout, a followed ordinal i is its request and its link's tree, followed by the layout from i + 1 |
| LinkTreeFacts.FanOutIndented | index.js:24-28 | every line of a node's fan-out is indented at least one level deeper than the node |
| LinkTreeFacts.ChildIndented | index.js:28 | FanOutIndented at an ordinal whose link is followed |
| LinkTreeFacts.NodeIndented | index.js:21-28 | a node's first line is its own, every later line is at least one indentation level deeper than the node's level, and all are at least at the node's level |
| LinkTreeFacts.WalkIndented | index.js:12-33 | for valid arguments every line after the seed line has at least 2·(indentation + 1) leading spaces: at least one indentation level (two spaces) deeper than the seed's level |
| LinkTreeFacts.FanOutBound | index.js:24-31 | a fan-out with n ordinals left prints and requests at most n full subtrees' worth |
| LinkTreeFacts.ChildBound | index.js:27-28 | FanOutBound at an ordinal whose link is followed |
| LinkTreeFacts.NodeBound | index.js:21-32 | a node of depth d and fan-out b prints at most as many lines as a full b-ary tree of depth d has nodes, and calls `getLink` fewer times |
| LinkTreeFacts.WalkBound | index.js:12-33 | for any arguments, one call prints at most 1 + b + … + b^d lines and calls `getLink` fewer times than that, for the effective depth d and fan-out b |
| LinkTreeFacts.Defaults | index.js:12 | unfolding step: omitted depth and fan-out behave as 1 and 1 |
| LinkTreeFacts.WalkNode | index.js:12-21 | unfolding step: a call with a non-empty article and numeric depth and fan-out passes both checks and produces its node |
| LinkTreeFacts.NodeFanOut | index.js:21-24 | unfolding step: a node with depth left prints its line, then runs the loop from ordinal 0 |
| LinkTreeFacts.FanOutStep | index.js:24-31 | unfolding step: one turn of the loop requests ordinal i and then either walks the link (depth − 1, same fan-out, indentation + 1) and continues at i + 1, or ends |
| LinkTreeFacts.FanOutChild | index.js:27-28 | unfolding step: a truthy link at ordinal i is a non-empty string; the loop is the request, that link's whole node, then the loop from i + 1 |
| LinkTreeFacts.FanOutEnd | index.js:29-31 | unfolding step: a falsy link at ordinal i makes its request the last event of the loop |
| Printer.World.constructor | index.js:3-5 | a fresh world holds the link source `getLink` answers from, an empty console and an empty trace |
| Printer.World.Log | index.js:9 | `console.log` appends exactly one line to the output and one event to the trace |
| Printer.World.GetLink | index.js:3-5 | `getLink(article, ordinal)` resolves to the link at that ordinal, or `undefined` past the end or for an unknown article; it records the call and prints nothing |
| Printer.PrintLink | index.js:7-10 | `printLink` appends exactly the formatted line to the console |
| Printer.PrintLinkTree | index.js:12-33 | a call appends to the trace exactly `Walk` of its arguments, and to the console exactly the lines of that trace |
| Printer.FollowLinks | index.js:24-32 | the loop appends exactly the fan-out from ordinal 0: it stops at the first falsy link or at `followLinks` |
| Printer.Script | index.js:35 | `printLinkTree('Light', 2, 3)` prints the lines of its walk; with the stub `getLink` it prints only "Light" |
| Printer.StubRun | index.js:35 | with the stub `getLink` the script's walk is the line "Light" and one request for ordinal 0 |
| Scenarios.LightLeaf | index.js:21-31 | a depth-1 child with no links prints its indented line and makes one failed request |
| Scenarios.LightChild | index.js:24-28 | ordinal i of "Light" is its request, the child's line and the child's failed request, then the rest of the loop |
| Scenarios.LightFanOut | index.js:24-32 | the loop over the three links of "Light" is one chunk per ordinal and makes no request past the third |
| Scenarios.LightChunks | index.js:21-32 | the Light walk is the seed line followed by one chunk per link, in ordinal order |
| Scenarios.LightRun | index.js:35 | with three links from "Light", the script's full trace, event by event |
| Scenarios.LightLines | index.js:35 | the Light output is the seed line, then each child's line indented once |
| Scenarios.LightOutput | index.js:35 | the console shows "Light" and then the three links, each indented two spaces |

## Left out

- `getLink` (index.js:3-5) is an unimplemented stub. It is modelled as a fixed map from an article to its links, read-only for the whole run. `getLink` resolves to a string or `undefined` only; other values a real `getLink` could return are not modelled.
- `BASE_URL` (index.js:1) is unused, so it is not modelled.
- `console.log` is modelled as appending a string to the `World`'s output sequence. Real I/O is not modelled.
- `async`/`await`: every call is awaited before the next starts, so the calls are modelled as ordinary sequential calls. There is no concurrency.
- Numbers are integers. NaN, infinities and fractional depth or fan-out are not modelled. NaN and infinities pass `typeof === 'number'`, and a fraction changes how often the loop runs. With NaN or +Infinity as depth, `linkDepth <= 0` is never true and `linkDepth - 1` does not change it, so only the link source ends the recursion, and a cycle of links (an article whose first link leads back to itself) makes index.js:12-33 run forever; -Infinity behaves like a depth ≤ 0. The model always terminates because its depth is an integer.
- Indentation is a natural number. A negative indentation, for which `repeat` throws, is not modelled. The top-level call always starts at 0.
- The `return` statements of `printLinkTree` become an if/else chain with the same branches.
- The `for` loop is its own method, `FollowLinks`. `PrintLinkTree` calls it after printing the article when depth is left.
- Budget bounding, link classification, the article cache and command-line parsing do not exist in index.js and are not part of this model.
