# Egg entries in Dafny

This project models `Entry`, the central class of the egg exporter. The exporter writes Panda3D `.egg` files. In the file an entry is a `<Type> name { … }` block. An `Entry` holds:

- a type tag;
- an optional name;
- an ordered, mutable list of children.

A child is a scalar, a tuple of scalars, or another entry. `format_output` renders an entry as text lines, and `__str__` joins those lines with line breaks. The model covers:

- `INDENT`;
- the constructor;
- `count`, `append` and `__len__`;
- `format_output` and `__str__`.

The modules are:

- `PyText` (pytext.dfy) covers the Python values an entry renders:
  - `None`, booleans, integers and strings;
  - `str()` of each, with the text of any integer, negative or not, proved to read back as that integer;
  - truthiness;
  - `str.join`, and `str.split` as its inverse.
- `EggFormat` (egg_format.dfy) gives the value of an entry tree (`EntryTree`, `Content`). It defines what `format_output` makes of that value as recursive functions:
  - `Format` gives the lines;
  - `BlockLines` and `ChildLines` give the block form;
  - `Render` joins the lines into the text.

  A child in block form that Python cannot concatenate with `INDENT`, that is, a scalar that is not a string, raises `TypeError` in the source. The model returns it as `Err(ConcatNonString(x))`.
- `EggProperties` (egg_properties.dfy) proves what the rendering promises:
  - line counts;
  - exactly which trees render without error;
  - the shape of the output;
  - where a nested entry's lines appear and at what depth;
  - what `append` does to the output;
  - that splitting `__str__` at line breaks gives back the lines, when no text in the tree holds a line break.
- `Egg` (egg.dfy) holds the classes:
  - `Entry`, whose `contents` is a shared `ContentList` object;
  - the step-by-step `format_output` (`FormatLines`, `FormatChildren` and `FormatChild`), which follows the branches of the source and is proved equal to `Format`.
- `EggExamples` (egg_examples.dfy) proves the renderings that test/egg_test.py expects. The example entries are built through the `Entry` class.

Three behaviours of egg.py that the model keeps as they are:

- egg.py does not reject an empty type tag (egg.py:11).
- Python truthiness decides whether the name is shown (egg.py:26), so a name of `0` or `''` is dropped.
- The `Entry(None)` the tests use as a root renders with a `<None> {` header, like any other entry.

## Model

| member | source | states |
|---|---|---|
| PyText.NatTextRoundTrip | egg.py:32 | the decimal text `str()` gives for a non-negative int reads back as that int |
| PyText.IntTextRoundTrip | egg.py:32 | the text `str()` gives for any int is a minus sign exactly for negatives followed by digits, and reads back as that int |
| PyText.SplitJoin | egg.py:54 | splitting a non-empty list of lines joined by a separator at that separator gives the lines back, when no line holds the separator |
| EggProperties.BlockLinesAppend | egg.py:27-35 | the block lines of two child lists one after the other are the first list's lines followed by the second's, and the first failure wins |
| EggProperties.AppendInsertsBeforeClose | egg.py:21-22 | after appending a child to an entry already in block form, the output is the old output with the child's lines inserted just before the closing `}`; a child that fails makes the output that failure |
| EggProperties.FormatLineCount | egg.py:24-48 | an entry renders to exactly `LineCount(t)` lines: one if it has no children or one inline child, otherwise two plus its children's lines |
| EggProperties.BlockLinesCount | egg.py:28-34 | the children in block form give exactly the sum of their line counts |
| EggProperties.ChildLinesCount | egg.py:29-34 | one child in block form gives one line, or as many lines as its nested entry |
| EggProperties.FormatOkIff | egg.py:27-46 | formatting succeeds if and only if every non-string scalar child sits alone on the header line, at every depth |
| EggProperties.BlockLinesOkIff | egg.py:28-34 | the block lines succeed if and only if every child is well formed |
| EggProperties.ChildLinesOkIff | egg.py:29-34 | one child in block form succeeds if and only if it is a tuple, a string, or a nested entry that formats |
| EggProperties.InlineAcceptsWhatBlockRejects | egg.py:33-44 | any scalar alone is inlined as ` {str(x)} }`, while the same non-string scalar twice raises the concatenation error |
| EggProperties.NameOmittedIffFalsy | egg.py:26 | the header leaves the name out if and only if the name is falsy, and is then `<type> {` |
| EggProperties.BlockLinesIndented | egg.py:28-34 | every block line begins with the four-space indent |
| EggProperties.FormatShape | egg.py:24-48 | output is one line exactly when there are no children or one inline child; otherwise the header, at least one indented line per child, and a lone `}`; it always starts with `<` and ends with `}` |
| EggProperties.ChildOccurs | egg.py:28-30 | a nested entry's lines appear, indented once, as consecutive lines of its parent's output, right after the header and the lines of the children before it |
| EggProperties.DescendantOccurs | egg.py:28-40 | an entry nested `d` levels deep formats without error and its lines appear consecutively in the root's output with `4*d` spaces in front |
| EggProperties.FormatAvoidsBreaks | egg.py:24-48 | when no string in the tree holds a line break, no output line does |
| EggProperties.RenderSplitsIntoLines | egg.py:53-54 | `__str__` is non-empty, starts with `<` and ends with `}`; splitting it at line breaks gives `format_output` back when no string in the tree holds one |
| Egg.Entry.constructor | egg.py:10-16 | a list argument is kept as the entry's own children list, without a copy; any other value becomes a new one-element list |
| Egg.Entry.Count | egg.py:18-19 | the count is the number of direct children |
| Egg.Entry.Append | egg.py:21-22 | the children list gains the item at the end, the count grows by one, and the earlier children stay |
| Egg.Entry.Len | egg.py:50-51 | `__len__` equals `count()` |
| Egg.Entry.FormatOutput | egg.py:24-48 | returns the entry's `Format` and changes nothing |
| Egg.Entry.ToStr | egg.py:53-54 | returns the lines joined by line breaks, or the formatting failure; the text is non-empty and begins `<` and ends `}` |
| Egg.FormatLines | egg.py:24-48 | the branch-by-branch construction of the lines equals `Format` |
| Egg.FormatChildren | egg.py:27-35 | the loop over the children gathers exactly the block lines, or stops at the first failure |
| Egg.FormatChild | egg.py:28-34 | one child's block lines: a nested entry indented, a tuple's joined text, a string, or the failure for any other scalar |
| Egg.DefaultListIsShared | egg.py:10 | two entries built without content hold the same list, so an append on one shows in both |
| EggExamples.EntryFormatText | test/egg_test.py:63-66 | the Vertex entry with a tuple and a UV child renders to the text the test expects |
| EggExamples.HierarchyLines | test/egg_test.py:25-30 | the VertexPool entry around it renders to the six lines of the expected text |
| EggExamples.EntryFormatExample | test/egg_test.py:63-66 | the same rendering, built through the constructor and `__str__` |
| EggExamples.HierarchyExample | test/egg_test.py:68-72 | the pool built without content and appended to renders to the expected text, while the shared default list is still empty |
| EggExamples.FalsyNameAndNoneType | egg.py:26 | a name of `0` disappears from the header, and an entry of type `None` renders as `<None> { … }` |

## Left out

- Floats are not modelled, so `str()` of a float is not modelled either. Scalars are `None`, booleans, integers and strings.
- Egg.Entry.Append: a child entry is stored as its value at the moment it is appended or passed to the constructor (alone or inside a list). If that child object is changed afterwards, the parent does not see the change. In the source the parent holds a reference. Entry cycles are not modelled for the same reason.
- Children the model cannot represent:
  - a list as a child of another list;
  - arbitrary objects as children;
  - entries inside tuples.

  In the source these render through `str()` or fail. A list given to the constructor is modelled: it becomes the children list.
- The text of Python's `TypeError` is not modelled. The failure carries only the offending scalar.
- `__repr__` is left out because it prints a memory address.
- The `Egg` class imported by test/egg_test.py does not exist in egg.py, and neither does the `index` method that test uses. So the root flattening of test_egg_str (lines 74-90) and test_egg_entry_index (lines 42-61) are not modelled.
- The `type` and `name` attributes are fixed after construction. egg.py never reassigns them.
- EggExamples.HierarchyExample: it states the expected text as the expected lines joined by line breaks, rather than as one literal.
- `__init__.py`, egg_blender_export.py and `_old/` are not part of this model. They hold the host application's UI and file I/O, and code no longer used.
