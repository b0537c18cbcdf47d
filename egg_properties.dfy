/** What `format_output` guarantees about the lines it makes: order, line
    counts, the header, first and last characters, indentation by depth, when it
    fails, and how `__str__` joins the lines. */
module EggProperties {
  import opened PyText
  import opened EggFormat

  // ---------------------------------------------------------------------------
  // Order: the block lines of a child list are the block lines of its parts.

  /** Children render in list order: the block lines of `a + b` are those of
      `a` followed by those of `b` (and the first failure in order wins). */
  lemma {:induction false} BlockLinesAppend(a: seq<Content>, b: seq<Content>)
    ensures BlockLines(a + b) == Then(BlockLines(a), BlockLines(b))
  {
    if a == [] {
      assert a + b == b;
      assert BlockLines(b).Ok? ==> [] + BlockLines(b).value == BlockLines(b).value;
    } else {
      assert (a + b)[0] == a[0];
      assert (a + b)[1..] == a[1..] + b;
      BlockLinesAppend(a[1..], b);
      var h, r := ChildLines(a[0]), BlockLines(a[1..]);
      if h.Ok? && r.Ok? && BlockLines(b).Ok? {
        assert h.value + (r.value + BlockLines(b).value) == (h.value + r.value) + BlockLines(b).value;
      }
    }
  }

  /** Appending a child to an entry already in block form inserts that child's
      lines just before the closing brace and leaves every earlier line as it was. */
  lemma AppendInsertsBeforeClose(t: EntryTree, c: Content)
    requires |t.contents| >= 1 && !IsInline(t)
    requires Format(t).Ok?
    ensures var after := Format(EntryTree(t.kind, t.name, t.contents + [c]));
            var before := Format(t).value;
            if ChildLines(c).Ok?
            then after == Ok(before[..|before| - 1] + ChildLines(c).value + ["}"])
            else after == ChildLines(c)
  {
    var t2 := EntryTree(t.kind, t.name, t.contents + [c]);
    assert !IsInline(t2);
    BlockLinesAppend(t.contents, [c]);
    assert BlockLines([c]) == Then(ChildLines(c), Ok([]));
    var head := Header(t.kind, t.name);
    var body := BlockLines(t.contents).value;
    assert Format(t).value == [head] + body + ["}"];
    assert Format(t).value[..|Format(t).value| - 1] == [head] + body;
    if ChildLines(c).Ok? {
      var more := ChildLines(c).value;
      assert more + [] == more;
      assert BlockLines(t2.contents) == Ok(body + more);
      assert ([head] + body) + more + ["}"] == [head] + (body + more) + ["}"];
    }
  }

  // ---------------------------------------------------------------------------
  // Line counts.

  /** The number of lines an entry renders to, counted independently of the
      text: one for an empty or inline entry, otherwise two plus its children's. */
  function LineCount(t: EntryTree): (n: nat)
    ensures n >= 1
    decreases t
  {
    if |t.contents| == 0 || IsInline(t) then 1 else 2 + ChildrenLineCount(t.contents)
  }

  /** The lines of a child list in block form: every child gives at least one. */
  function ChildrenLineCount(cs: seq<Content>): (n: nat)
    ensures n >= |cs|
    decreases cs
  {
    if cs == [] then 0 else ChildLineCount(cs[0]) + ChildrenLineCount(cs[1..])
  }

  /** A tuple or scalar child is one line; a nested entry as many as it renders to. */
  function ChildLineCount(c: Content): (n: nat)
    ensures n >= 1
    decreases c
  {
    match c
    case Node(e) => LineCount(e)
    case _ => 1
  }

  /** A successful render has exactly LineCount lines. */
  lemma {:induction false} FormatLineCount(t: EntryTree)
    requires Format(t).Ok?
    ensures |Format(t).value| == LineCount(t)
    decreases t
  {
    if |t.contents| > 0 && !IsInline(t) {
      BlockLinesCount(t.contents);
    }
  }

  /** The block lines of a child list number ChildrenLineCount. */
  lemma {:induction false} BlockLinesCount(cs: seq<Content>)
    requires BlockLines(cs).Ok?
    ensures |BlockLines(cs).value| == ChildrenLineCount(cs)
    decreases cs
  {
    if cs != [] {
      ChildLinesCount(cs[0]);
      BlockLinesCount(cs[1..]);
    }
  }

  /** The lines of one child in block form number ChildLineCount. */
  lemma {:induction false} ChildLinesCount(c: Content)
    requires ChildLines(c).Ok?
    ensures |ChildLines(c).value| == ChildLineCount(c)
    decreases c
  {
    if c.Node? {
      FormatLineCount(c.entry);
    }
  }

  // ---------------------------------------------------------------------------
  // When rendering fails.

  /** The trees that render: every scalar child of an entry in block form, at
      any depth, is a string. */
  predicate WellFormed(t: EntryTree)
    decreases t
  {
    IsInline(t) || forall c :: c in t.contents ==> ChildWellFormed(c)
  }

  predicate ChildWellFormed(c: Content)
    decreases c
  {
    match c
    case Node(e) => WellFormed(e)
    case Tuple(_) => true
    case Item(x) => x.Str?
  }

  /** Rendering succeeds exactly on well-formed trees. */
  lemma {:induction false} FormatOkIff(t: EntryTree)
    ensures Format(t).Ok? <==> WellFormed(t)
    decreases t
  {
    if !IsInline(t) {
      BlockLinesOkIff(t.contents);
    }
  }

  /** The block lines of a child list exist exactly when every child is well formed. */
  lemma {:induction false} BlockLinesOkIff(cs: seq<Content>)
    ensures BlockLines(cs).Ok? <==> forall c :: c in cs ==> ChildWellFormed(c)
    decreases cs
  {
    if cs != [] {
      ChildLinesOkIff(cs[0]);
      BlockLinesOkIff(cs[1..]);
      assert forall c :: c in cs <==> c == cs[0] || c in cs[1..];
    }
  }

  /** One child's block lines exist exactly when the child is well formed. */
  lemma {:induction false} ChildLinesOkIff(c: Content)
    ensures ChildLines(c).Ok? <==> ChildWellFormed(c)
    decreases c
  {
    if c.Node? {
      FormatOkIff(c.entry);
    }
  }

  /** A single scalar child is inlined whatever its type, while the same
      non-string scalar in block form cannot be concatenated to the indent. */
  lemma InlineAcceptsWhatBlockRejects(kind: Scalar, name: Scalar, x: Scalar)
    ensures Format(EntryTree(kind, name, [Item(x)])) == Ok([Header(kind, name) + " " + Text(x) + " }"])
    ensures !x.Str? ==> Format(EntryTree(kind, name, [Item(x), Item(x)])) == Err(ConcatNonString(x))
    ensures x.Str? ==> Format(EntryTree(kind, name, [Item(x), Item(x)])).Ok?
  {
    var two := [Item(x), Item(x)];
    assert two[1..] == [Item(x)];
    assert BlockLines([Item(x)]) == Then(ChildLines(Item(x)), BlockLines([]));
    assert BlockLines(two) == Then(ChildLines(Item(x)), BlockLines([Item(x)]));
  }

  // ---------------------------------------------------------------------------
  // The header.

  /** The name is left out of the header exactly when it is falsy, so a name
      of `0`, `''`, `False` or `None` renders the same as no name. */
  lemma NameOmittedIffFalsy(kind: Scalar, name: Scalar)
    ensures Header(kind, name) == Header(kind, PyNone) <==> !Truthy(name)
    ensures Header(kind, PyNone) == "<" + Text(kind) + "> {"
  {
    if Truthy(name) {
      assert |Header(kind, name)| > |Header(kind, PyNone)|;
    }
  }

  // ---------------------------------------------------------------------------
  // The shape of the lines.

  predicate StartsWithIndent(line: string) {
    |line| >= |INDENT| && line[..|INDENT|] == INDENT
  }

  predicate EndsWithBrace(line: string) {
    |line| > 0 && line[|line| - 1] == '}'
  }

  /** Every block line of a child list is indented. */
  lemma {:induction false} BlockLinesIndented(cs: seq<Content>)
    requires BlockLines(cs).Ok?
    ensures forall j :: 0 <= j < |BlockLines(cs).value| ==> StartsWithIndent(BlockLines(cs).value[j])
  {
    if cs != [] {
      BlockLinesIndented(cs[1..]);
      var h := ChildLines(cs[0]).value;
      forall j | 0 <= j < |h|
        ensures StartsWithIndent(h[j])
      {
        match cs[0]
        case Node(e) =>
          assert h[j] == INDENT + Format(e).value[j - 0];
        case _ =>
      }
    }
  }

  /** A rendering is one line when the entry is empty or inline and otherwise a
      block: the header, at least one indented line per child, and a lone `}`.
      The first line starts with `<` and the last ends with `}`. */
  lemma FormatShape(t: EntryTree)
    requires Format(t).Ok?
    ensures var ls := Format(t).value;
            && |ls| >= 1
            && |ls[0]| > 0 && ls[0][0] == '<'
            && EndsWithBrace(ls[|ls| - 1])
            && (|ls| == 1 <==> |t.contents| == 0 || IsInline(t))
            && (|ls| == 1 && |t.contents| == 0 ==> ls[0] == Header(t.kind, t.name) + "}")
            && (|ls| > 1 ==> |ls| >= 2 + |t.contents|)
            && (|ls| > 1 ==> ls[0] == Header(t.kind, t.name) && ls[|ls| - 1] == "}")
            && (forall j :: 0 < j < |ls| - 1 ==> StartsWithIndent(ls[j]))
  {
    var ls := Format(t).value;
    var head := Header(t.kind, t.name);
    assert head[0] == '<';
    if |t.contents| > 0 && !IsInline(t) {
      var body := BlockLines(t.contents).value;
      BlockLinesIndented(t.contents);
      BlockLinesCount(t.contents);
      assert ls == [head] + body + ["}"];
      assert forall j :: 0 < j < |ls| - 1 ==> ls[j] == body[j - 1];
    } else if |t.contents| == 0 {
      assert ls[0] == head + "}";
    }
  }

  // ---------------------------------------------------------------------------
  // Indentation by depth.

  /** A path of child positions, each leading to a nested entry. */
  predicate IsPath(t: EntryTree, path: seq<nat>)
    decreases |path|
  {
    |path| == 0 ||
    (path[0] < |t.contents| && t.contents[path[0]].Node? &&
     IsPath(t.contents[path[0]].entry, path[1..]))
  }

  /** The nested entry that a path leads to. */
  function Descendant(t: EntryTree, path: seq<nat>): (d: EntryTree)
    requires IsPath(t, path)
    decreases |path|
  {
    if |path| == 0 then t else Descendant(t.contents[path[0]].entry, path[1..])
  }

  function Spaces(n: nat): (r: string)
    ensures |r| == n && forall k :: 0 <= k < n ==> r[k] == ' '
  {
    seq(n, _ => ' ')
  }

  /** Every line prefixed by 4·d spaces. */
  function IndentBy(lines: seq<string>, d: nat): (r: seq<string>)
    ensures |r| == |lines|
    ensures forall j :: 0 <= j < |lines| ==> r[j] == Spaces(4 * d) + lines[j]
  {
    seq(|lines|, j requires 0 <= j < |lines| => Spaces(4 * d) + lines[j])
  }

  /** `sub` stands in `whole` as a contiguous run starting at `off`. */
  predicate Occurs(sub: seq<string>, whole: seq<string>, off: nat) {
    off + |sub| <= |whole| && whole[off..off + |sub|] == sub
  }

  /** A nested entry's lines, indented one level, stand contiguously in its
      parent's lines, after the lines of the children before it. */
  lemma ChildOccurs(t: EntryTree, i: nat) returns (off: nat)
    requires i < |t.contents| && t.contents[i].Node?
    requires Format(t).Ok?
    ensures Format(t.contents[i].entry).Ok?
    ensures Occurs(Indented(Format(t.contents[i].entry).value), Format(t).value, off)
    ensures BlockLines(t.contents[..i]).Ok? && off == 1 + |BlockLines(t.contents[..i]).value|
  {
    var cs := t.contents;
    assert !IsInline(t);
    assert cs == cs[..i] + cs[i..];
    BlockLinesAppend(cs[..i], cs[i..]);
    assert cs[i..][0] == cs[i] && cs[i..][1..] == cs[i + 1..];
    var before := BlockLines(cs[..i]).value;
    var mine := ChildLines(cs[i]).value;
    var after := BlockLines(cs[i + 1..]).value;
    var ls := Format(t).value;
    assert ls == [Header(t.kind, t.name)] + (before + (mine + after)) + ["}"];
    off := 1 + |before|;
    assert ls[off..off + |mine|] == mine;
  }

  /** A descendant at depth d renders contiguously inside the root's lines, each
      of its lines carrying 4·d more spaces: indentation adds up level by level. */
  lemma {:induction false} DescendantOccurs(t: EntryTree, path: seq<nat>) returns (off: nat)
    requires IsPath(t, path)
    requires Format(t).Ok?
    ensures Format(Descendant(t, path)).Ok?
    ensures Occurs(IndentBy(Format(Descendant(t, path)).value, |path|), Format(t).value, off)
    decreases |path|
  {
    if |path| == 0 {
      off := 0;
      var ls := Format(t).value;
      forall j | 0 <= j < |ls|
        ensures IndentBy(ls, 0)[j] == ls[j]
      {
        assert Spaces(0) + ls[j] == ls[j];
      }
      assert IndentBy(ls, 0) == ls;
    } else {
      var e := t.contents[path[0]].entry;
      var outer := ChildOccurs(t, path[0]);
      var inner := DescendantOccurs(e, path[1..]);
      off := outer + inner;
      IndentOccursCompose(Format(Descendant(t, path)).value, Format(e).value, Format(t).value, |path| - 1, inner, outer);
    }
  }

  /** Lines that stand at depth d inside a child stand at depth d + 1 inside the
      parent, once the child's lines are indented into the parent's. */
  lemma IndentOccursCompose(lines: seq<string>, child: seq<string>, parent: seq<string>, d: nat, inner: nat, outer: nat)
    requires Occurs(IndentBy(lines, d), child, inner)
    requires Occurs(Indented(child), parent, outer)
    ensures Occurs(IndentBy(lines, d + 1), parent, outer + inner)
  {
    var off := outer + inner;
    var sub := parent[off..off + |lines|];
    assert INDENT + Spaces(4 * d) == Spaces(4 * (d + 1));
    forall j | 0 <= j < |lines|
      ensures sub[j] == IndentBy(lines, d + 1)[j]
    {
      assert child[inner + j] == Spaces(4 * d) + lines[j];
      assert parent[outer + (inner + j)] == INDENT + child[inner + j];
      assert INDENT + (Spaces(4 * d) + lines[j]) == (INDENT + Spaces(4 * d)) + lines[j];
    }
  }

  // ---------------------------------------------------------------------------
  // `__str__` and physical lines.

  /** No type, name or scalar text in the tree holds a line break. */
  predicate NoLineBreaks(t: EntryTree)
    decreases t
  {
    '\n' !in Text(t.kind) && '\n' !in Text(t.name) &&
    forall c :: c in t.contents ==> ChildNoLineBreaks(c)
  }

  predicate ChildNoLineBreaks(c: Content)
    decreases c
  {
    match c
    case Node(e) => NoLineBreaks(e)
    case Tuple(xs) => forall x :: x in xs ==> '\n' !in Text(x)
    case Item(x) => '\n' !in Text(x)
  }

  /** Joining parts that hold no `ch`, with a separator that holds no `ch`, gives no `ch`. */
  lemma {:induction false} JoinAvoids(sep: string, parts: seq<string>, ch: char)
    requires ch !in sep
    requires forall j :: 0 <= j < |parts| ==> ch !in parts[j]
    ensures ch !in Join(sep, parts)
  {
    if |parts| > 1 {
      JoinAvoids(sep, parts[1..], ch);
    }
  }

  lemma {:induction false} TextsAvoidBreaks(xs: seq<Scalar>)
    requires forall x :: x in xs ==> '\n' !in Text(x)
    ensures '\n' !in JoinSpace(xs)
  {
    var ts := Texts(xs);
    forall j | 0 <= j < |ts|
      ensures '\n' !in ts[j]
    {
      TextsAt(xs, j);
      assert xs[j] in xs;
    }
    JoinAvoids(" ", ts, '\n');
  }

  lemma {:induction false} TextsAt(xs: seq<Scalar>, j: nat)
    requires j < |xs|
    ensures Texts(xs)[j] == Text(xs[j])
  {
    if j > 0 {
      TextsAt(xs[1..], j - 1);
    }
  }

  /** A tree without line breaks in its texts renders to lines without line breaks. */
  lemma {:induction false} FormatAvoidsBreaks(t: EntryTree)
    requires NoLineBreaks(t) && Format(t).Ok?
    ensures forall j :: 0 <= j < |Format(t).value| ==> '\n' !in Format(t).value[j]
    decreases t
  {
    var head := Header(t.kind, t.name);
    assert '\n' !in head;
    if |t.contents| > 0 && !IsInline(t) {
      BlockAvoidsBreaks(t.contents);
    } else if IsInline(t) {
      assert t.contents[0] in t.contents;
      match t.contents[0]
      case Tuple(xs) => TextsAvoidBreaks(xs);
      case Item(x) =>
    }
  }

  lemma {:induction false} BlockAvoidsBreaks(cs: seq<Content>)
    requires forall c :: c in cs ==> ChildNoLineBreaks(c)
    requires BlockLines(cs).Ok?
    ensures forall j :: 0 <= j < |BlockLines(cs).value| ==> '\n' !in BlockLines(cs).value[j]
    decreases cs
  {
    if cs != [] {
      assert cs[0] in cs;
      ChildAvoidsBreaks(cs[0]);
      assert forall c :: c in cs[1..] ==> c in cs;
      BlockAvoidsBreaks(cs[1..]);
    }
  }

  lemma {:induction false} ChildAvoidsBreaks(c: Content)
    requires ChildNoLineBreaks(c)
    requires ChildLines(c).Ok?
    ensures forall j :: 0 <= j < |ChildLines(c).value| ==> '\n' !in ChildLines(c).value[j]
    decreases c
  {
    match c
    case Node(e) => FormatAvoidsBreaks(e);
    case Tuple(xs) => TextsAvoidBreaks(xs);
    case Item(x) =>
  }

  /** `__str__` has no trailing line break: it begins with `<` and ends with `}`;
      and when no text in the tree holds a line break, splitting it at line
      breaks gives back exactly the lines of `format_output`. */
  lemma RenderSplitsIntoLines(t: EntryTree)
    requires Format(t).Ok?
    ensures Render(t).Ok?
    ensures var s := Render(t).value; |s| > 0 && s[0] == '<' && s[|s| - 1] == '}'
    ensures NoLineBreaks(t) ==> Split(Render(t).value, '\n') == Format(t).value
  {
    var ls := Format(t).value;
    FormatShape(t);
    JoinEnds("\n", ls);
    var s := Render(t).value;
    var last := ls[|ls| - 1];
    assert s[|s| - |last|..][|last| - 1] == last[|last| - 1];
    if NoLineBreaks(t) {
      FormatAvoidsBreaks(t);
      SplitJoin(ls, '\n');
    }
  }
}
