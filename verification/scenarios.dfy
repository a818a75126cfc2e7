/** A worked run of `printLinkTree('Light', 2, 3)` against a link source with three links from "Light". */
module Scenarios {
  import opened LinkTree
  import LinkTreeFacts

  /** "Light" links to three articles, none of which links anywhere. */
  const LightLinks: Links := map["Light" := ["Photon", "Wave", "Optics"]]

  /** A leaf of the Light example: its line at indentation 1, then one failed request. */
  lemma LightLeaf(child: string)
    requires child in ["Photon", "Wave", "Optics"]
    ensures Node(LightLinks, child, 1, 3, 1) == [Line("  " + child), Request(child, 0)]
  {
    assert LinkAt(LightLinks, child, 0) == Undefined;
    assert FormatLine(child, 1) == "  " + child;
    LinkTreeFacts.NodeFanOut(LightLinks, child, 1, 3, 1);
    LinkTreeFacts.FanOutEnd(LightLinks, child, 1, 3, 1, 0);
  }

  /** The events of ordinal i of "Light": the request, the child's line, the child's failed request. */
  function Chunk(i: nat, child: string): seq<Event> {
    [Request("Light", i), Line("  " + child), Request(child, 0)]
  }

  /** Ordinal i of "Light": its chunk, then the rest of the fan-out. */
  lemma LightChild(i: nat, child: string)
    requires i < 3 && child == LightLinks["Light"][i]
    ensures FanOut(LightLinks, "Light", 2, 3, 0, i) == Chunk(i, child) + FanOut(LightLinks, "Light", 2, 3, 0, i + 1)
  {
    assert child in ["Photon", "Wave", "Optics"];
    LightLeaf(child);
    assert [Request("Light", i)] + Node(LightLinks, child, 1, 3, 1) == Chunk(i, child);
    assert LinkAt(LightLinks, "Light", i) == Str(child);
    LinkTreeFacts.FanOutChild(LightLinks, "Light", 2, 3, 0, i);
  }

  /** The Light walk: the seed line, then one chunk per link, in order. */
  lemma LightChunks()
    ensures Walk(LightLinks, Str("Light"), Num(2), Num(3), 0)
         == [Line("Light")] + (Chunk(0, "Photon") + (Chunk(1, "Wave") + Chunk(2, "Optics")))
  {
    LinkTreeFacts.WalkNode(LightLinks, "Light", 2, 3, 0);
    LinkTreeFacts.NodeFanOut(LightLinks, "Light", 2, 3, 0);
    assert FormatLine("Light", 0) == "Light";
    LightFanOut();
  }

  /** The loop over the links of "Light": one chunk per ordinal, and no request past the third. */
  lemma LightFanOut()
    ensures FanOut(LightLinks, "Light", 2, 3, 0, 0) == Chunk(0, "Photon") + (Chunk(1, "Wave") + Chunk(2, "Optics"))
  {
    LightChild(0, "Photon");
    LightChild(1, "Wave");
    LightChild(2, "Optics");
    assert FanOut(LightLinks, "Light", 2, 3, 0, 3) == [];
    assert Chunk(2, "Optics") + [] == Chunk(2, "Optics");
  }

  /** The indented names, spelled out; kept apart so the solver does this character work only once. */
  lemma IndentedNames()
    ensures "  " + "Photon" == "  Photon" && "  " + "Wave" == "  Wave" && "  " + "Optics" == "  Optics"
  {
  }

  /**
    With three links from "Light", the script prints the seed line and the three
    links one level deeper, each followed by a single request that finds nothing.
   */
  lemma LightRun()
    ensures Walk(LightLinks, Str("Light"), Num(2), Num(3), 0)
         == [Line("Light"),
             Request("Light", 0), Line("  Photon"), Request("Photon", 0),
             Request("Light", 1), Line("  Wave"), Request("Wave", 0),
             Request("Light", 2), Line("  Optics"), Request("Optics", 0)]
  {
    LightChunks();
    ChunkEvents();
  }

  /** The three chunks of the Light walk, written out. */
  lemma ChunkEvents()
    ensures Chunk(0, "Photon") == [Request("Light", 0), Line("  Photon"), Request("Photon", 0)]
    ensures Chunk(1, "Wave") == [Request("Light", 1), Line("  Wave"), Request("Wave", 0)]
    ensures Chunk(2, "Optics") == [Request("Light", 2), Line("  Optics"), Request("Optics", 0)]
  {
    IndentedNames();
  }

  /** A chunk shows one console line: the child's, indented once. */
  lemma ChunkLines(i: nat, child: string)
    ensures Lines(Chunk(i, child)) == ["  " + child]
  {
    var last := [Request(child, 0)];
    assert Lines(last) == [] + Lines([]);
    assert Lines([Line("  " + child)] + last) == ["  " + child] + Lines(last);
    assert Chunk(i, child) == [Request("Light", i)] + ([Line("  " + child)] + last);
  }

  /** The Light output, line by line: the seed, then each child's line. */
  lemma LightLines()
    ensures Lines(Walk(LightLinks, Str("Light"), Num(2), Num(3), 0))
         == ["Light"] + (["  " + "Photon"] + (["  " + "Wave"] + ["  " + "Optics"]))
  {
    LightChunks();
    var a, b, c := Chunk(0, "Photon"), Chunk(1, "Wave"), Chunk(2, "Optics");
    assert Lines([Line("Light")]) == ["Light"] + Lines([]);
    ChunkLines(0, "Photon");
    ChunkLines(1, "Wave");
    ChunkLines(2, "Optics");
    LinkTreeFacts.TraceAppend([Line("Light")], a + (b + c));
    LinkTreeFacts.TraceAppend(a, b + c);
    LinkTreeFacts.TraceAppend(b, c);
  }

  /** The console output of the Light example. */
  lemma LightOutput()
    ensures Lines(Walk(LightLinks, Str("Light"), Num(2), Num(3), 0)) == ["Light", "  Photon", "  Wave", "  Optics"]
  {
    LightLines();
    IndentedNames();
  }
}
