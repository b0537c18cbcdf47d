/** The renderings that test/egg_test.py expects of egg.py, built through the
    Entry class the way the tests build them. */
module EggExamples {
  import opened PyText
  import opened EggFormat
  import opened Egg

  /** `Entry('UV', content=(1, 1))`. */
  const UV := EntryTree(Str("UV"), PyNone, [Tuple([Int(1), Int(1)])])

  /** `Entry('Vertex', 1, [(x, 1, 1), Entry('UV', content=(1, 1))])`. */
  function Vertex(x: int): (t: EntryTree) {
    EntryTree(Str("Vertex"), Int(1), [Tuple([Int(x), Int(1), Int(1)]), Node(UV)])
  }

  /** A single tuple child is inlined on the header line. */
  lemma UvLines()
    ensures Format(UV) == Ok(["<UV> { 1 1 }"])
    ensures ChildLines(Node(UV)) == Ok(["    <UV> { 1 1 }"])
  {
    assert [Int(1), Int(1)][1..] == [Int(1)];
    assert Texts([Int(1), Int(1)]) == ["1", "1"];
    assert JoinSpace([Int(1), Int(1)]) == "1 1";
    assert Header(Str("UV"), PyNone) == "<UV> {";
    assert "<UV> {" + " " + "1 1" + " }" == "<UV> { 1 1 }";
    assert INDENT + "<UV> { 1 1 }" == "    <UV> { 1 1 }";
    assert Indented(["<UV> { 1 1 }"]) == ["    <UV> { 1 1 }"];
  }

  /** A tuple and a nested entry make a block: header, two indented lines, `}`. */
  lemma VertexLines(x: int)
    ensures Format(Vertex(x)) == Ok(["<Vertex> 1 {", INDENT + JoinSpace([Int(x), Int(1), Int(1)]), "    <UV> { 1 1 }", "}"])
  {
    UvLines();
    var cs := Vertex(x).contents;
    var first := INDENT + JoinSpace([Int(x), Int(1), Int(1)]);
    assert cs[1..] == [Node(UV)];
    assert ["    <UV> { 1 1 }"] + [] == ["    <UV> { 1 1 }"];
    assert BlockLines([Node(UV)]) == Ok(["    <UV> { 1 1 }"]);
    assert ChildLines(cs[0]) == Ok([first]);
    assert [first] + ["    <UV> { 1 1 }"] == [first, "    <UV> { 1 1 }"];
    assert BlockLines(cs) == Ok([first, "    <UV> { 1 1 }"]);
    assert Header(Str("Vertex"), Int(1)) == "<Vertex> 1 {";
    assert ["<Vertex> 1 {"] + [first, "    <UV> { 1 1 }"] + ["}"] == ["<Vertex> 1 {", first, "    <UV> { 1 1 }", "}"];
  }

  /** The block line of the tuple `(x, 1, 1)`. */
  lemma TupleText(x: int)
    ensures INDENT + JoinSpace([Int(x), Int(1), Int(1)]) == "    " + IntText(x) + " 1 1"
  {
    var xs := [Int(x), Int(1), Int(1)];
    assert xs[1..] == [Int(1), Int(1)] && [Int(1), Int(1)][1..] == [Int(1)];
    assert Texts(xs) == [IntText(x), "1", "1"];
    assert Join(" ", ["1", "1"]) == "1 1";
    assert Join(" ", [IntText(x), "1", "1"]) == IntText(x) + " " + "1 1";
    assert INDENT + (IntText(x) + " " + "1 1") == "    " + IntText(x) + " 1 1";
  }

  /** The lines of test_egg_entry_format: header, tuple line, nested entry, `}`. */
  lemma EntryFormatLines()
    ensures Format(Vertex(1)) == Ok(["<Vertex> 1 {", "    1 1 1", "    <UV> { 1 1 }", "}"])
  {
    VertexLines(1);
    TupleText(1);
    assert IntText(1) == "1";
    assert "    " + "1" + " 1 1" == "    1 1 1";
  }

  /** Four lines joined by line breaks. */
  lemma JoinFour(a: string, b: string, c: string, d: string)
    ensures Join("\n", [a, b, c, d]) == a + ("\n" + (b + ("\n" + (c + ("\n" + d)))))
  {
    assert [a, b, c, d][1..] == [b, c, d] && [b, c, d][1..] == [c, d] && [c, d][1..] == [d];
    assert Join("\n", [c, d]) == c + ("\n" + d);
    assert Join("\n", [b, c, d]) == b + ("\n" + (c + ("\n" + d)));
  }

  /** The four expected lines of test_egg_entry_format, joined, are its literal. */
  lemma EntryFormatJoined()
    ensures Join("\n", ["<Vertex> 1 {", "    1 1 1", "    <UV> { 1 1 }", "}"]) == "<Vertex> 1 {\n    1 1 1\n    <UV> { 1 1 }\n}"
  {
    JoinFour("<Vertex> 1 {", "    1 1 1", "    <UV> { 1 1 }", "}");
    var t2 := "    <UV> { 1 1 }" + ("\n" + "}");
    assert t2 == "    <UV> { 1 1 }\n}";
    var t1 := "    1 1 1" + ("\n" + t2);
    assert t1 == "    1 1 1\n    <UV> { 1 1 }\n}";
  }

  /** The text test_egg_entry_format expects. */
  lemma EntryFormatText()
    ensures Render(Vertex(1)) == Ok("<Vertex> 1 {\n    1 1 1\n    <UV> { 1 1 }\n}")
  {
    EntryFormatLines();
    EntryFormatJoined();
  }

  /** TEST_STRING_B of test/egg_test.py, a triple-quoted string, line by line. */
  const HierarchyExpected := ["<VertexPool> box {", "    <Vertex> 1 {", "        0 1 1", "        <UV> { 1 1 }", "    }", "}"]

  /** Four lines indented one level, line by line. */
  lemma IndentedFour(a: string, b: string, c: string, d: string)
    ensures Indented([a, b, c, d]) == [INDENT + a, INDENT + b, INDENT + c, INDENT + d]
  {
  }

  /** An entry whose only child is a nested entry that formats: the header,
      the nested lines indented, and `}`. */
  lemma SingleNodeLines(kind: Scalar, name: Scalar, e: EntryTree, lines: seq<string>)
    requires Format(e) == Ok(lines)
    ensures Format(EntryTree(kind, name, [Node(e)])) == Ok([Header(kind, name)] + Indented(lines) + ["}"])
  {
    var cs := [Node(e)];
    assert cs[1..] == [];
    assert Indented(lines) + [] == Indented(lines);
    assert BlockLines(cs) == Ok(Indented(lines));
  }

  /** The Vertex entry of the hierarchy test, one level deeper. */
  lemma IndentedVertexLines()
    ensures Format(Vertex(0)) == Ok(["<Vertex> 1 {", "    0 1 1", "    <UV> { 1 1 }", "}"])
    ensures Indented(["<Vertex> 1 {", "    0 1 1", "    <UV> { 1 1 }", "}"]) == HierarchyExpected[1..5]
  {
    VertexLines(0);
    TupleText(0);
    assert IntText(0) == "0";
    assert "    " + "0" + " 1 1" == "    0 1 1";
    IndentedFour("<Vertex> 1 {", "    0 1 1", "    <UV> { 1 1 }", "}");
    assert INDENT + "<Vertex> 1 {" == "    <Vertex> 1 {";
    assert INDENT + "    0 1 1" == "        0 1 1";
    assert INDENT + "    <UV> { 1 1 }" == "        <UV> { 1 1 }";
    assert INDENT + "}" == "    }";
  }

  /** The lines of test_egg_hierarchy_entry_format: one nested entry, one level deeper. */
  lemma HierarchyLines()
    ensures Format(EntryTree(Str("VertexPool"), Str("box"), [Node(Vertex(0))])) == Ok(HierarchyExpected)
  {
    var inner := ["<Vertex> 1 {", "    0 1 1", "    <UV> { 1 1 }", "}"];
    IndentedVertexLines();
    SingleNodeLines(Str("VertexPool"), Str("box"), Vertex(0), inner);
    assert Header(Str("VertexPool"), Str("box")) == "<VertexPool> box {";
    assert HierarchyExpected == ["<VertexPool> box {"] + HierarchyExpected[1..5] + ["}"];
  }

  /** test_egg_entry_format, built through the Entry class. */
  method EntryFormatExample() returns (s: Result<string>)
    ensures s == Ok("<Vertex> 1 {\n    1 1 1\n    <UV> { 1 1 }\n}")
  {
    var uv := new Entry(Str("UV"), PyNone, ValueArg(Tuple([Int(1), Int(1)])));
    var list := new ContentList([Tuple([Int(1), Int(1), Int(1)]), Node(uv.Tree())]);
    var vertex := new Entry(Str("Vertex"), Int(1), ListArg(list));
    assert vertex.Tree() == Vertex(1);
    s := vertex.ToStr();
    EntryFormatText();
  }

  /** test_egg_hierarchy_entry_format, built through the Entry class: the pool
      is built without content, so it appends to the shared default list, here
      still empty. */
  method HierarchyExample(defaults: ContentList) returns (s: Result<string>)
    requires defaults.items == []
    modifies defaults
    ensures s == Ok(Join("\n", HierarchyExpected))
  {
    var pool := new Entry(Str("VertexPool"), Str("box"), ListArg(defaults));
    var uv := new Entry(Str("UV"), PyNone, ValueArg(Tuple([Int(1), Int(1)])));
    var list := new ContentList([Tuple([Int(0), Int(1), Int(1)]), Node(uv.Tree())]);
    var vertex := new Entry(Str("Vertex"), Int(1), ListArg(list));
    assert vertex.Tree() == Vertex(0);
    pool.Append(Node(vertex.Tree()));
    assert pool.Tree() == EntryTree(Str("VertexPool"), Str("box"), [Node(Vertex(0))]);
    s := pool.ToStr();
    HierarchyLines();
  }

  /** A name of `0` is falsy and disappears, and the `Entry(None)` the tests use
      as a root renders a `<None>` header like any other entry. */
  lemma FalsyNameAndNoneType()
    ensures Format(EntryTree(Str("Vertex"), Int(0), [])) == Ok(["<Vertex> {}"])
    ensures Format(EntryTree(PyNone, PyNone, [Item(Str("Z-Up"))])) == Ok(["<None> { Z-Up }"])
  {
    assert Header(Str("Vertex"), Int(0)) == "<Vertex> {";
    assert "<Vertex> {" + "}" == "<Vertex> {}";
    assert Header(PyNone, PyNone) == "<None> {";
    assert IsInline(EntryTree(PyNone, PyNone, [Item(Str("Z-Up"))]));
    assert "<None> {" + " " + "Z-Up" + " }" == "<None> { Z-Up }";
  }
}
