# VkUI front end in Dafny

A model of the HTML/CSS front end of VkUI, together with the small vertex-model
and colour helpers of its renderer. The front end turns markup and a stylesheet
into a flat list of rectangles:

- the HTML tokenizer reads the source with a character cursor;
- the tree builder parses the token list into a DOM tree by recursive descent;
- the CSS parser reads `sel, sel { prop: value; }` rules;
- the style applier gives each DOM node the values of the rules whose
  selectors name its tag;
- layout builds a box tree, leaving out blank text, and stacks block boxes
  vertically with margins and padding;
- the display list holds one solid rectangle per element box, in pre-order.

Besides these, the model covers parts of the vertex model:

- the vertex-count check;
- the choice of a memory type;
- the buffer size;
- the draw call;
- the vertex input layout.

It also covers the two colour parsers: `#RRGGBB` decoding and the named-colour
table.

Layout:

| file | module | source |
|---|---|---|
| common.dfy | `Common` | character classes, `consumeWhile` as a function, the map that repeated `m[k] = v` leaves |
| dom.dfy | `Dom` | tokens and DOM nodes |
| html_tokenizer.dfy | `HtmlTokenizer` | src/parser/HtmlTokenizer.cpp |
| html_parser.dfy | `HtmlParser` | src/parser/HtmlParser.cpp |
| css_parser.dfy | `Css` | src/parser/CssParser.cpp, include/parser/CssStructs.hpp |
| style_applier.dfy | `StyleApplier` | src/parser/StyleApplier.cpp |
| layout.dfy | `Layout` | src/layout/LayoutEngine.cpp, include/layout/LayoutBox.hpp |
| display_list.dfy | `DisplayList` | src/layout/DisplayList.cpp |
| hex_color.dfy | `HexColor` | include/utils/Color.hpp |
| named_color.dfy | `NamedColor` | include/parser/ColorParser.hpp |
| vertex_model.dfy | `VertexModel` | src/Model.cpp, include/Model.hpp |

The three cursor-driven parsers follow the same pattern:

- A class (`Tokenizer`, `Parser`, `CssParser`) has the source as a constant
  and the cursor as a mutable field.
- It has one method per routine of the source.
- Each method is proved equal to a function of the input and the starting
  cursor. That function gives the value read and the cursor after it.
- The lemmas are stated about those functions.

The style applier, layout and display list are methods with the source's
loops. Each is proved to build the value a recursive function describes.

Two loops of the source never end on some inputs:

- the attribute loop of the tokenizer;
- the selector loop of the CSS parser.

In the attribute loop, a pass that moves no cursor leaves the loop's state
exactly as it was, so every later pass repeats it and the source never
returns. In the selector loop, such a pass moves no cursor either, but it
still appends an empty selector to `selectors`. That vector grows with
every pass until allocation fails, and the function then exits with an
exception. The model detects a pass that moves no cursor and returns an
explicit outcome instead of looping: `None` in the tokenizer,
`Err(NoProgress)` in the CSS parser.

## Model

| member | source | states |
|---|---|---|
| Common.Span | src/parser/HtmlTokenizer.cpp:69-73 | `consumeWhile` as a function: the cursor never moves back and stays inside the source. It stops at the end or at the first character that fails the predicate. |
| Common.SpanRun | src/parser/HtmlTokenizer.cpp:69-73 | the string `consumeWhile` returns is exactly the stretch of source the cursor passes, and every character in it satisfies the predicate |
| Common.SpanUnique | src/parser/CssParser.cpp:79-81 | a run is fixed by its ends: if every character from `i` up to `j` satisfies the predicate and `j` does not (or is the end), the run from `i` stops at `j` |
| Common.AssignAllLastWins | src/parser/HtmlTokenizer.cpp:35 | after the assignments `m[k] = v` in order, a key holds the value of its last assignment, so a repeated attribute name keeps its last value |
| Common.AssignAllDomain | src/parser/HtmlTokenizer.cpp:35 | the keys of the resulting map are exactly the keys of the starting map and the keys assigned |
| HtmlTokenizer.Tokenizer.constructor | src/parser/HtmlTokenizer.cpp:4 | the scanner starts at position 0 of its source |
| HtmlTokenizer.Tokenizer.PeekChar | src/parser/HtmlTokenizer.cpp:66 | the character under the cursor, or '\0' at or past the end |
| HtmlTokenizer.Tokenizer.ConsumeChar | src/parser/HtmlTokenizer.cpp:65 | returns the character under the cursor ('\0' at the end) and advances the cursor by exactly one |
| HtmlTokenizer.Tokenizer.ConsumeWhitespace | src/parser/HtmlTokenizer.cpp:68 | moves the cursor past the longest run of C-locale white space |
| HtmlTokenizer.Tokenizer.ConsumeWhile | src/parser/HtmlTokenizer.cpp:69-73 | returns the longest run of characters satisfying the predicate and moves the cursor past exactly that run |
| HtmlTokenizer.Tokenizer.ParseAttributeValue | src/parser/HtmlTokenizer.cpp:16-25 | returns the value and leaves the cursor as `AttrValueAt` says |
| HtmlTokenizer.AttrValueAtShape | src/parser/HtmlTokenizer.cpp:16-25 | after white space, a value is the text between a pair of double quotes, and both quotes are consumed (the closing one may be the end of input). Without an opening quote the value is empty and the cursor stays after the white space. |
| HtmlTokenizer.AttrValueAtQuoteFree | src/parser/HtmlTokenizer.cpp:21 | an attribute value never contains a double quote |
| HtmlTokenizer.AttrStepAt | src/parser/HtmlTokenizer.cpp:30-36 | one pass of the attribute loop never moves the cursor back, and a pass that assigns an attribute consumes at least one character |
| HtmlTokenizer.AttrsFrom | src/parser/HtmlTokenizer.cpp:29-37 | when the attribute loop ends, the cursor is on a '>' inside the source |
| HtmlTokenizer.Tokenizer.ParseAttributes | src/parser/HtmlTokenizer.cpp:27-39 | returns `None` exactly when the loop would repeat a pass forever. Otherwise it returns the map the name/value assignments leave in source order, with the cursor on the closing '>'. |
| HtmlTokenizer.AttrsFromWellFormed | src/parser/HtmlTokenizer.cpp:27-39 | the attribute loop only assigns alphanumeric names and values without double quotes |
| HtmlTokenizer.TokenAt | src/parser/HtmlTokenizer.cpp:41-62 | `nextToken`, entered before the end, moves the cursor forward by at least one character whenever it returns |
| HtmlTokenizer.Tokenizer.NextToken | src/parser/HtmlTokenizer.cpp:41-62 | returns `None` exactly when `TokenAt` does, and otherwise the token and cursor `TokenAt` gives |
| HtmlTokenizer.TokenAtWellFormed | src/parser/HtmlTokenizer.cpp:41-62 | every token `nextToken` returns is well formed. TEXT is non-empty, has no '<' and does not start with white space. CLOSE_TAG holds no '>'. An OPEN_TAG name has no white space and no '>', and its attributes are well formed. END_OF_FILE has an empty value. |
| HtmlTokenizer.Tokenizer.Tokenize | src/parser/HtmlTokenizer.cpp:6-13 | the token list is the one `TokensFrom` gives, or `None` when an attribute loop never ends |
| HtmlTokenizer.TokensFromWellFormed | src/parser/HtmlTokenizer.cpp:8-11 | the tokens collected by the loop and the final one are all well formed. The list ends with END_OF_FILE, and no END_OF_FILE appears before the last two places. |
| HtmlTokenizer.TokenizeWellFormed | src/parser/HtmlTokenizer.cpp:6-13 | the token list is non-empty, ends with an END_OF_FILE token with an empty value, and holds only well-formed tokens |
| HtmlTokenizer.UnclosedTagDiverges | src/parser/HtmlTokenizer.cpp:29-37 | on `<p` the attribute loop never ends |
| HtmlTokenizer.TrailingSpaceGivesTwoEofTokens | src/parser/HtmlTokenizer.cpp:6-13 | white space after the last tag makes `nextToken` return END_OF_FILE, and `tokenize` then appends a second one |
| HtmlParser.Parser.constructor | src/parser/HtmlParser.cpp:4 | the parser starts at the first token |
| HtmlParser.Parser.ConsumeToken | src/parser/HtmlParser.cpp:68-70 | advances the token cursor by exactly one |
| HtmlParser.NodeAt | src/parser/HtmlParser.cpp:37-61 | `parseNode` consumes at least one token and never runs past the list |
| HtmlParser.ChildrenAt | src/parser/HtmlParser.cpp:46-48 | the child loop never moves the cursor back or past the list |
| HtmlParser.NodesAt | src/parser/HtmlParser.cpp:22-31 | the top-level loop never moves the cursor back or past the list |
| HtmlParser.Parser.ParseNode | src/parser/HtmlParser.cpp:37-61 | returns the node and leaves the cursor as `NodeAt` says |
| HtmlParser.Parser.ParseNodes | src/parser/HtmlParser.cpp:20-34 | returns the nodes and leaves the cursor as `NodesAt` says |
| HtmlParser.Parser.Parse | src/parser/HtmlParser.cpp:6-17 | returns the only top-level node, or an element "root" whose children are the top-level nodes in order |
| HtmlParser.NodeAtShape | src/parser/HtmlParser.cpp:37-61 | a TEXT token becomes a text node with its value and consumes exactly one token. Any other token opens an element named by its value, whose children are those the child loop reads. If that loop stops at eof, nothing more is consumed. Otherwise it stopped at a close tag of the same name, and exactly that tag is consumed. No token consumed is an eof. |
| HtmlParser.NodeAtPassesNoEof | src/parser/HtmlParser.cpp:37-61 | `parseNode` never consumes an END_OF_FILE token and never moves past one |
| HtmlParser.ChildrenAtPassesNoEof | src/parser/HtmlParser.cpp:46-52 | the child loop stops at the first eof: none of the tokens it consumes is one |
| HtmlParser.ChildrenAtStops | src/parser/HtmlParser.cpp:46-48 | the child loop stops, without consuming, only at eof or at a close tag with the element's name |
| HtmlParser.NodesAtStops | src/parser/HtmlParser.cpp:22-31 | `parseNodes` stops, without consuming, only at eof (END_OF_FILE or the end of the list) or at a close tag |
| HtmlParser.NodeAtWellFormed | src/parser/HtmlParser.cpp:37-61 | every node read is well formed: text nodes are leaves |
| HtmlParser.ParseWellFormed | src/parser/HtmlParser.cpp:6-17 | whatever the tokens, the document tree is well formed |
| HtmlParser.NodeAtTokensOf | src/parser/HtmlParser.cpp:37-61 | a well-formed tree is read back from its own tokens whatever follows them, and the cursor ends just after them |
| HtmlParser.ChildrenAtTokensOf | src/parser/HtmlParser.cpp:46-48 | well-formed children followed by their parent's close tag are read back in order, and the loop stops at that close tag |
| HtmlParser.NodesAtTokensOf | src/parser/HtmlParser.cpp:22-31 | well-formed top-level trees followed by eof or a close tag are read back in order |
| HtmlParser.ParseTokensOf | src/parser/HtmlParser.cpp:6-17 | parsing the tokens of well-formed trees followed by END_OF_FILE gives back the only tree, or "root" holding them all in order |
| HtmlParser.StrayCloseTagOpensElement | src/parser/HtmlParser.cpp:46-48 | a close tag that does not match the open element is read as an element of its own name: the tokens of `<a></b></a>` give `a` holding `b` holding `a` |
| Css.CssParser.constructor | src/parser/CssParser.cpp:5 | the parser starts at position 0 of its source |
| Css.CssParser.PeekChar | src/parser/CssParser.cpp:82-84 | the character under the cursor, or '\0' at the end |
| Css.CssParser.ConsumeChar | src/parser/CssParser.cpp:85-87 | returns the character under the cursor and advances the cursor by exactly one |
| Css.CssParser.ConsumeWhitespace | src/parser/CssParser.cpp:79-81 | moves the cursor past the longest run of white space |
| Css.CssParser.ParseIdentifier | src/parser/CssParser.cpp:70-76 | returns the longest run of ASCII letters, digits and '-' at the cursor and moves past it |
| Css.CssParser.ParseSelector | src/parser/CssParser.cpp:63-68 | a selector whose tag name is the identifier at the cursor |
| Css.SelectorsFrom | src/parser/CssParser.cpp:50-61 | the selector loop ends only on a '{', which it does not consume; its only failure is a pass that reads nothing |
| Css.CssParser.ParseSelectors | src/parser/CssParser.cpp:50-61 | returns the selectors and leaves the cursor as `SelectorsFrom` says, or `Err(NoProgress)` when the loop would never end |
| Css.DeclarationAt | src/parser/CssParser.cpp:38-47 | a declaration that parses consumes at least one character |
| Css.CssParser.ParseDeclaration | src/parser/CssParser.cpp:38-47 | returns the declaration or the error (missing ':' or ';') and leaves the cursor as `DeclarationAt` says |
| Css.DeclarationsFrom | src/parser/CssParser.cpp:29-36 | the declaration loop ends only on a '}', which it does not consume; it fails only with a missing ':' or ';' |
| Css.CssParser.ParseDeclarations | src/parser/CssParser.cpp:29-36 | returns the declarations or the first error, as `DeclarationsFrom` says |
| Css.RuleAt | src/parser/CssParser.cpp:17-27 | a rule that parses consumes at least one character |
| Css.CssParser.ParseRule | src/parser/CssParser.cpp:17-27 | returns the rule or the first error and leaves the cursor as `RuleAt` says |
| Css.CssParser.Parse | src/parser/CssParser.cpp:7-15 | returns the stylesheet of the rules `RulesFrom` reads, or its error |
| Css.RulesFromGrows | src/parser/CssParser.cpp:9-13 | the rule loop only ever adds rules |
| Css.BlankSourceHasNoRules | src/parser/CssParser.cpp:7-15 | a source parses to a stylesheet with no rules exactly when it is empty or all white space |
| Css.BracesNeverMissing | src/parser/CssParser.cpp:17-27 | the '{' and '}' checks of `parseRule` never fail |
| Css.UnterminatedSelectorSpins | src/parser/CssParser.cpp:52-59 | the selector loop on `h1`, which has no '{', never ends |
| Css.DeclarationAtText | src/parser/CssParser.cpp:38-47 | `prop: value;` written with identifiers is read back as that declaration, cursor after the ';' |
| Css.DeclarationsFromText | src/parser/CssParser.cpp:29-36 | printed declarations followed by '}' are read back in order |
| Css.SelectorsFromText | src/parser/CssParser.cpp:50-61 | printed selectors (`a, b `) followed by '{' are read back in order |
| Css.RuleAtText | src/parser/CssParser.cpp:17-27 | a printed rule is read back as that rule |
| Css.RulesFromText | src/parser/CssParser.cpp:9-13 | printed rules are read back in order |
| Css.ParseSheetText | src/parser/CssParser.cpp:7-15 | every stylesheet of identifier selectors and declarations, printed, parses back to itself: rules and declarations keep their order |
| StyleApplier.ApplyStyles | src/parser/StyleApplier.cpp:12-32 | the styled tree its nested loops build is `Styled`: each node's values are the cascade of the stylesheet, and its children are styled in order |
| StyleApplier.SelectorPassesValues | src/parser/StyleApplier.cpp:17-21 | a rule several of whose selectors match assigns what it assigns when one matches; a rule with no matching selector assigns nothing |
| StyleApplier.StyleValuesSnoc | src/parser/StyleApplier.cpp:16-24 | a rule at the end of the stylesheet overrides the earlier rules property by property with its own values (its last declaration of a property winning), or changes nothing when it does not apply |
| StyleApplier.StyleValuesDomain | src/parser/StyleApplier.cpp:16-24 | a property has a specified value exactly when some rule with a matching selector declares it |
| StyleApplier.LatestDeclarationWins | src/parser/StyleApplier.cpp:16-24 | a property takes the value of the latest applying rule that declares it, and within that rule its latest declaration |
| StyleApplier.TextNodeUnstyled | src/parser/StyleApplier.cpp:4-10 | a text node matches no selector and gets no specified values |
| StyleApplier.StyledShape | src/parser/StyleApplier.cpp:27-29 | the styled tree has the DOM tree's shape: each styled node refers to its DOM node, with the same children in the same order |
| Layout.GetPxCases | src/layout/LayoutEngine.cpp:6-17 | an unset property gives the fallback; a set property gives its length when it reads as one, else the fallback |
| Layout.KeptMembers | src/layout/LayoutEngine.cpp:21-27 | a child gets a box exactly when it is not a text node made only of space, tab, newline and carriage return |
| Layout.KeptAppend | src/layout/LayoutEngine.cpp:21-27 | filtering the children commutes with concatenation, so the kept children keep their order |
| Layout.BoxTreeBuilds | src/layout/LayoutEngine.cpp:19-29 | the box tree has one box per kept child, in order, at every level, each referring to its styled node |
| Layout.BuildBoxTree | src/layout/LayoutEngine.cpp:19-29 | the box tree its loop builds is `BoxTree` |
| Layout.Layout | src/layout/LayoutEngine.cpp:41-77 | the box it lays out is `LaidOut` of the box in the containing block |
| Layout.LayoutChildren | src/layout/LayoutEngine.cpp:66-72 | the children and content height the child loop leaves are what `Stack` gives |
| Layout.StackClosedForm | src/layout/LayoutEngine.cpp:66-72 | each child is laid out in a block at the content area's left, below the outer heights (margin-top + height + margin-bottom) of all earlier children. The content height is the sum of those outer heights. |
| Layout.LaidOutElement | src/layout/LayoutEngine.cpp:41-77 | an element box: width is the specified width if above 0, else the containing block's. x and y are the containing block's plus margin-left and margin-top. Child `i` is laid out in the content area (inside the padding) below the earlier children. Height is the specified height if above 0, else the children's total outer height plus twice the padding. |
| Layout.TextBoxUntouched | src/layout/LayoutEngine.cpp:42 | layout leaves text boxes as they are |
| Layout.LaidOutBuilds | src/layout/LayoutEngine.cpp:41-77 | layout changes only dimensions: the box tree still has one box per kept styled node, in order |
| Layout.BuildLayoutTree | src/layout/LayoutEngine.cpp:31-39 | the layout tree is the box tree laid out in the containing block (0, 0, 800, 600) |
| Layout.LayoutTreeBuilds | src/layout/LayoutEngine.cpp:31-39 | the laid-out tree has one box per kept styled node, in order |
| DisplayList.BuildListRecursive | src/layout/DisplayList.cpp:3-13 | appends to the list it is given the commands `Emit` gives for the box's subtree |
| DisplayList.BuildDisplayList | src/layout/DisplayList.cpp:15-19 | the display list is one default-colour rectangle for each element box's dimensions, in pre-order |
| DisplayList.EmitPaints | src/layout/DisplayList.cpp:3-13 | the traversal appends exactly the pre-order element rectangles of the subtree, each painted as one command with that rectangle and the default colour (0, 0, 0, 255) |
| DisplayList.EmitAllPaints | src/layout/DisplayList.cpp:9-11 | the children are visited in order, each subtree's commands after the previous one's |
| DisplayList.ElementRectsCount | src/layout/DisplayList.cpp:4-7 | one command per element box, none for text boxes |
| DisplayList.DisplayListContents | src/layout/DisplayList.cpp:15-19 | the display list has as many commands as element boxes, command `i` has the dimensions of the `i`-th element box in pre-order, and every command has the default colour |
| DisplayList.RootCommandFirst | src/layout/DisplayList.cpp:4-7 | an element root's command comes before all its descendants'; a text root adds none of its own |
| HexColor.ParseHexColor | include/utils/Color.hpp:11-19 | alpha is always 255; a string that is not seven characters starting with '#' gives the default colour (0, 0, 0, 255) |
| HexColor.ParseHexChannels | include/utils/Color.hpp:13-17 | r, g and b are the base-16 values of characters 1-2, 3-4 and 5-6 |
| HexColor.RedDependsOnItsDigits | include/utils/Color.hpp:14 | the red channel depends only on characters 1 and 2 |
| HexColor.GreenDependsOnItsDigits | include/utils/Color.hpp:15 | the green channel depends only on characters 3 and 4 |
| HexColor.BlueDependsOnItsDigits | include/utils/Color.hpp:16 | the blue channel depends only on characters 5 and 6 |
| HexColor.ParseFormatHexColor | include/utils/Color.hpp:11-19 | every colour written as `#rrggbb` decodes back to its channels with alpha 255 |
| NamedColor.ColorTable | include/parser/ColorParser.hpp:6-9 | the table knows exactly three names |
| NamedColor.ParseColor | include/parser/ColorParser.hpp:5-15 | a known name gives its table entry (black, white, gray), any other string gives magenta; alpha is 1 and every channel is in [0, 1] |
| NamedColor.FallbackIsDistinct | include/parser/ColorParser.hpp:11-14 | the result is magenta exactly when the name is not in the table |
| NamedColor.NamesMatchExactly | include/parser/ColorParser.hpp:11-12 | names match exactly: "Black" and " gray" give magenta |
| VertexModel.AttributesTileVertex | src/Model.cpp:82-95 | `getBindingDescriptions` gives one per-vertex binding whose stride is the vertex size, and `getAttributeDescriptions` gives two attributes on it. Each attribute is as wide as its field in include/Model.hpp:8-10. They do not overlap, and together they cover one stride exactly. |
| VertexModel.FindMemoryType | src/Model.cpp:60-70 | returns the smallest index below the type count whose filter bit is set and whose flags include every requested property, or fails when there is none |
| VertexModel.VertexCount | src/Model.cpp:8 | the vertex count as a 32-bit value: the number of vertices when below 2^32 |
| VertexModel.CreateModel | src/Model.cpp:7-13 | rejected exactly when the 32-bit vertex count is below 3. Otherwise it keeps that count, requests `sizeof(Vertex)` times the number of vertices bytes, and uses a host-visible, host-coherent memory type the buffer allows. It fails only when no such type exists. |
| VertexModel.ChosenMemoryIsHostVisibleAndCoherent | src/Model.cpp:41-44 | the memory chosen for the buffer is both host visible and host coherent |
| VertexModel.DrawReadsWholeBuffer | src/Model.cpp:23 | below 2^32 vertices, `draw` (src/Model.cpp:78-80) reads exactly the bytes the buffer was sized for: one instance, one stride per vertex |
| VertexModel.WrappedVertexCount | src/Model.cpp:8 | from 2^32 vertices on the count wraps: 2^32 + 3 vertices pass the check and draw only three |

## Left out

- Vulkan calls are not part of this model: creating, allocating, binding, mapping and filling the buffer, `bind`, and command recording. The device's memory table and the buffer's allowed memory types are parameters.
- VertexModel.CreateModel: assumes that buffer creation and memory allocation succeed, so the two errors `createVertexBuffer` throws for them are not modelled.
- Logging (`Log::warn`, `Log::info`) is dropped; it has no effect on results.
- Floating point: lengths, rectangles and colour channels are exact reals. Rounding in layout is not modelled.
- Layout.GetPx: `std::stof` and the removal of "px" are not modelled. A map from property strings to the lengths they read as (`Lengths`) stands for them; a string not in the map is one `stof` rejects.
- HexColor.ParseHexColor: requires the six characters after '#' to be hex digits. The `std::stoi` cases outside that are not modelled: throwing on a non-hex pair, a partial read such as "1g", and a sign or leading white space.
- The dimensions of a text box are never initialised, yet its parent reads its height. In the source, each text box's dimensions are undefined on their own. The model does not capture that: one value, the parameter `unset` of `BoxTree`, stands for the dimensions of every text box in the tree, and layout leaves it as it is.
- Box trees, styled trees and DOM trees are values, not objects linked by pointers and back-references. Layout returns the laid-out tree instead of updating boxes in place. The display list is passed along and returned instead of being appended to by reference. Aliasing and ownership are therefore not modelled.
- HtmlTokenizer.Tokenizer.ParseAttributes, HtmlTokenizer.Tokenizer.Tokenize: where the attribute loop never returns, the model returns `None`.
- Css.CssParser.ParseSelectors: where the selector loop keeps appending empty selectors until allocation fails, the model returns `Err(NoProgress)`. It does not model the growing vector or the allocation failure.
- The `Token` struct in include/parser/Token.hpp has no attribute map, but src/parser/HtmlTokenizer.cpp:56 builds an open-tag token with one. The model follows the .cpp file: `Dom.Token` carries the attributes.
- Css.BracesNeverMissing: the '{' and '}' checks of `parseRule` are written as errors. In the code they cannot fail, because the selector loop ends only on '{', the declaration loop ends only on '}', and white-space skipping stops on either. The model keeps the checks and proves they never fire.
- Characters are Dafny `char`s, and the character classes are those of the C locale (`isspace`, `isalnum`) over ASCII.
- Parts of the renderer are not part of this model: the Vulkan engine, the pipeline, the application window and loop, and `main`.
