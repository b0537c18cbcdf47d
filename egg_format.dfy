/** The value of an `Entry` tree of egg.py and the lines `format_output` makes
    of it, written as recursive functions, with the properties of that rendering. */
module EggFormat {
  import opened PyText

  /** One indentation level: four spaces. */
  const INDENT: string := "    "

  /** A child of an entry: a scalar, a tuple of scalars, or a nested entry. */
  datatype Content = Item(x: Scalar) | Tuple(elems: seq<Scalar>) | Node(entry: EntryTree)

  /** The value of an entry: its type tag, its name and its ordered children. */
  datatype EntryTree = EntryTree(kind: Scalar, name: Scalar, contents: seq<Content>)

  /** The only failure of rendering: `INDENT + content` on a child that is not a
      string raises Python's TypeError. */
  datatype FormatError = ConcatNonString(offending: Scalar)

  datatype Result<T> = Ok(value: T) | Err(error: FormatError)

  /** The opening line: `<type>`, then ` name` when the name is truthy, then ` {`. */
  function Header(kind: Scalar, name: Scalar): (r: string) {
    "<" + Text(kind) + ">" + (if Truthy(name) then " " + Text(name) else "") + " {"
  }

  /** Every line with one more level of indentation. */
  function Indented(lines: seq<string>): (r: seq<string>)
    ensures |r| == |lines|
    ensures forall j :: 0 <= j < |lines| ==> r[j] == INDENT + lines[j]
  {
    seq(|lines|, j requires 0 <= j < |lines| => INDENT + lines[j])
  }

  /** A single scalar or tuple child goes on the header line. */
  predicate IsInline(t: EntryTree) {
    |t.contents| == 1 && !t.contents[0].Node?
  }

  /** The text of a scalar or tuple child: `format()` of a scalar, space-joined tuple elements. */
  function InlineText(c: Content): (r: string)
    requires !c.Node?
  {
    match c
    case Item(x) => Text(x)
    case Tuple(xs) => JoinSpace(xs)
  }

  /** Lines of `a` followed by lines of `b`; the first failure wins. */
  function Then(a: Result<seq<string>>, b: Result<seq<string>>): (r: Result<seq<string>>) {
    if a.Err? then a else if b.Err? then b else Ok(a.value + b.value)
  }

  /** `format_output`: one line when there are no children or a single inline
      child, otherwise the header, the children's indented lines and a lone `}`. */
  function Format(t: EntryTree): (r: Result<seq<string>>)
    decreases t
  {
    var head := Header(t.kind, t.name);
    if |t.contents| == 0 then Ok([head + "}"])
    else if IsInline(t) then Ok([head + " " + InlineText(t.contents[0]) + " }"])
    else
      match BlockLines(t.contents)
      case Err(e) => Err(e)
      case Ok(body) => Ok([head] + body + ["}"])
  }

  /** The indented lines of the children in block form, in order. */
  function BlockLines(cs: seq<Content>): (r: Result<seq<string>>)
    decreases cs
  {
    if cs == [] then Ok([]) else Then(ChildLines(cs[0]), BlockLines(cs[1..]))
  }

  /** The indented lines of one child in block form: a nested entry's lines, a
      tuple's joined text, or a string; any other scalar cannot be concatenated. */
  function ChildLines(c: Content): (r: Result<seq<string>>)
    decreases c
  {
    match c
    case Node(e) =>
      (match Format(e)
       case Err(err) => Err(err)
       case Ok(lines) => Ok(Indented(lines)))
    case Tuple(xs) => Ok([INDENT + JoinSpace(xs)])
    case Item(x) => if x.Str? then Ok([INDENT + x.s]) else Err(ConcatNonString(x))
  }

  /** `__str__`: the lines joined by line breaks, with no trailing one. */
  function Render(t: EntryTree): (r: Result<string>) {
    match Format(t)
    case Err(e) => Err(e)
    case Ok(lines) => Ok(Join("\n", lines))
  }
}
