/** The `Entry` class of egg.py: a type tag, a name and a mutable list of
    children, with `append`, `count`, `__len__`, `format_output` and `__str__`. */
module Egg {
  import opened PyText
  import opened EggFormat
  import EggProperties

  /** A Python list of children. It is an object of its own because the source
      shares it: the constructor keeps a list it is given without copying, and
      every entry built without content holds the one default list. */
  class ContentList {
    var items: seq<Content>

    constructor (items: seq<Content>)
      ensures this.items == items
    {
      this.items := items;
    }
  }

  /** The `content` argument of the constructor: a list, kept as it is, or any
      other single child, wrapped in a new one-element list. */
  datatype ContentArg = ListArg(list: ContentList) | ValueArg(item: Content)

  class Entry {
    const kind: Scalar
    const name: Scalar
    const contents: ContentList

    /** `Entry(entry_type, name, content)`. Python's default `content=[]` is one
        list made when the function is defined: a caller that leaves content out
        passes that same ContentList every time. */
    constructor (entryType: Scalar, name: Scalar, content: ContentArg)
      ensures kind == entryType && this.name == name
      ensures content.ListArg? ==> contents == content.list
      ensures content.ValueArg? ==> fresh(contents) && contents.items == [content.item]
    {
      kind := entryType;
      this.name := name;
      if content.ListArg? {
        contents := content.list;
      } else {
        contents := new ContentList([content.item]);
      }
    }

    /** The entry as a value: what `format_output` reads. */
    function Tree(): (t: EntryTree)
      reads contents
    {
      EntryTree(kind, name, contents.items)
    }

    /** `count()`: the number of direct children. */
    function Count(): (n: nat)
      reads contents
      ensures n == |Tree().contents|
    {
      |contents.items|
    }

    /** `__len__` is `count()`. */
    function Len(): (n: nat)
      reads contents
      ensures n == Count()
    {
      Count()
    }

    /** `append(entry)`: the new child goes last, the earlier ones stay, and the
        change shows in every entry that shares this list. */
    method Append(item: Content)
      modifies contents
      ensures contents.items == old(contents.items) + [item]
      ensures Count() == old(Count()) + 1
      ensures contents.items[..old(Count())] == old(contents.items)
      ensures contents.items[Count() - 1] == item
    {
      contents.items := contents.items + [item];
    }

    /** `format_output()`: reads the entry and changes nothing. */
    method FormatOutput() returns (r: Result<seq<string>>)
      ensures r == Format(Tree())
    {
      r := FormatLines(Tree());
    }

    /** `__str__`: the lines of `format_output` joined by line breaks. */
    method ToStr() returns (r: Result<string>)
      ensures r == Render(Tree())
      ensures r.Ok? ==> |r.value| > 0 && r.value[0] == '<' && r.value[|r.value| - 1] == '}'
    {
      var lines := FormatOutput();
      if lines.Err? {
        return Err(lines.error);
      }
      EggProperties.RenderSplitsIntoLines(Tree());
      r := Ok(Join("\n", lines.value));
    }
  }

  /** The body of `format_output`, step by step: the header line; for more
      than one child every child's indented lines and a closing `}`; for a single
      child either the nested entry's indented lines and `}` or the child's text
      added to the header line; for no child `}` added to the header line. */
  method FormatLines(t: EntryTree) returns (r: Result<seq<string>>)
    ensures r == Format(t)
    decreases t
  {
    var head := Header(t.kind, t.name);
    var outputLines := [head];
    var cs := t.contents;
    if |cs| > 1 {
      assert !IsInline(t);
      var body := FormatChildren(cs);
      if body.Err? {
        return Err(body.error);
      }
      outputLines := outputLines + body.value;
      outputLines := outputLines + ["}"];
    } else if |cs| == 1 {
      var content := cs[0];
      if content.Node? {
        assert !IsInline(t);
        var sub := FormatChild(content);
        assert BlockLines(cs) == Then(ChildLines(cs[0]), BlockLines([]));
        if sub.Err? {
          return Err(sub.error);
        }
        assert sub.value + [] == sub.value;
        outputLines := outputLines + sub.value;
        outputLines := outputLines + ["}"];
      } else if content.Tuple? {
        assert IsInline(t) && InlineText(content) == JoinSpace(content.elems);
        assert outputLines[..|outputLines| - 1] == [] && outputLines[|outputLines| - 1] == head;
        outputLines := outputLines[..|outputLines| - 1] + [outputLines[|outputLines| - 1] + " " + JoinSpace(content.elems) + " }"];
        assert outputLines == [head + " " + JoinSpace(content.elems) + " }"];
      } else {
        assert IsInline(t) && InlineText(content) == Text(content.x);
        assert outputLines[..|outputLines| - 1] == [] && outputLines[|outputLines| - 1] == head;
        outputLines := outputLines[..|outputLines| - 1] + [outputLines[|outputLines| - 1] + " " + Text(content.x) + " }"];
        assert outputLines == [head + " " + Text(content.x) + " }"];
      }
    } else {
      assert outputLines[..|outputLines| - 1] == [] && outputLines[|outputLines| - 1] == head;
      outputLines := outputLines[..|outputLines| - 1] + [outputLines[|outputLines| - 1] + "}"];
      assert outputLines == [head + "}"];
    }
    r := Ok(outputLines);
  }

  /** The `for content in self._contents` loop of block form: the indented
      lines of every child in order, or the first failure. */
  method FormatChildren(cs: seq<Content>) returns (r: Result<seq<string>>)
    ensures r == BlockLines(cs)
    decreases cs
  {
    var lines: seq<string> := [];
    var i := 0;
    while i < |cs|
      invariant 0 <= i <= |cs|
      invariant BlockLines(cs[..i]) == Ok(lines)
    {
      assert cs[..i + 1] == cs[..i] + [cs[i]];
      EggProperties.BlockLinesAppend(cs[..i], [cs[i]]);
      assert BlockLines([cs[i]]) == Then(ChildLines(cs[i]), Ok([]));
      assert cs[i] in cs;
      var child := FormatChild(cs[i]);
      if child.Err? {
        assert cs == cs[..i + 1] + cs[i + 1..];
        EggProperties.BlockLinesAppend(cs[..i + 1], cs[i + 1..]);
        return Err(child.error);
      }
      assert child.value + [] == child.value;
      lines := lines + child.value;
      i := i + 1;
    }
    assert cs[..i] == cs;
    r := Ok(lines);
  }

  /** One child in block form: a nested entry's lines each prefixed by INDENT,
      a tuple's space-joined text, or `INDENT + content`, which fails unless the
      child is a string. */
  method FormatChild(c: Content) returns (r: Result<seq<string>>)
    ensures r == ChildLines(c)
    decreases c
  {
    match c
    case Node(e) =>
      var sub := FormatLines(e);
      if sub.Err? {
        return Err(sub.error);
      }
      r := Ok(Indented(sub.value));
    case Tuple(xs) =>
      r := Ok([INDENT + JoinSpace(xs)]);
    case Item(x) =>
      if !x.Str? {
        return Err(ConcatNonString(x));
      }
      r := Ok([INDENT + x.s]);
  }

  /** Every entry built without content holds the one default list, so an
      append on one of them shows in all of them. */
  method DefaultListIsShared(defaults: ContentList, item: Content) returns (a: Entry, b: Entry)
    modifies defaults
    ensures a.contents == defaults && b.contents == defaults
    ensures a.Tree().contents == b.Tree().contents == old(defaults.items) + [item]
  {
    a := new Entry(Str("Group"), PyNone, ListArg(defaults));
    b := new Entry(Str("Group"), PyNone, ListArg(defaults));
    a.Append(item);
  }
}
