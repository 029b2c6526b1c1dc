# SwiftPlantUML diagram-text assembly, modelled in Dafny

SwiftPlantUML turns parsed Swift declarations into a PlantUML script. This
project models the part that assembles the script text, and proves
properties about it. That part has two pieces.

- **The rectangle-grouping resolver.** `getRectanglesLine` on an array of
  `RectangleOptions` is a user-configured tree of named rectangles. For each
  rectangle it:
  - emits `rectangle "<name>" {`;
  - resolves the nested rectangles first and re-indents their text one level;
  - claims every remaining `(name, line)` registry entry whose name the
    rectangle lists, removing it from the registry;
  - emits `}`.
- **The script driver.** `PlantUMLScript.init` writes:
  - `@startuml`;
  - the header: theme, include, styling block, title;
  - the declarations, either one rendered line each in order, or a
    registry, the rectangle block and then the unclaimed lines;
  - the two connection blocks;
  - `@enduml`.

Modules, leaves first:

- `options.dfy` (`Options`): Swift optionals.
- `text.dfy` (`Text`):
  - `appendAsNewLine`;
  - `joined(separator: "\n")`;
  - one level of re-indentation (`Indent`);
  - the view of a string as its newline-separated `Lines`, used to state
    layout properties.
- `rectangles.dfy` (`Rectangles`): the rectangle tree and the resolver, written
  as close to the Swift code as a functional model allows. That includes the
  own-level loop over a value snapshot of the registry, the `firstIndex`
  lookup by full `(name, line)` equality, and `remove(at:)`.
- `placement.dfy` (`Placement`): an independent description of where every
  entry ends up. It has two parts:
  - a *plan*: a tree of blocks, each with the entries it claimed;
  - a *sweep*: the rectangles' name sets in processing order, each claiming
    from what the earlier ones left.

  It proves that the resolver renders the plan. From that it derives
  conservation, first-claimant-wins, the leftover registry and the
  one-block-per-rectangle shape.
- `scenarios.dfy` (`Scenarios`): two situations worked out for all inputs.
  In one, two siblings list the same declaration. In the other, a child and
  its parent list the same declaration.
- `script.dfy` (`Script`): the driver, including `defaultStyling` and
  `processStructureItem`.

Several things the code calls but does not define become parameters of the
model, bundled in `Script.Environment`:

- the declaration pre-processing passes;
- the per-declaration renderer;
- the connection lists.

`String.appendAsNewLine` is a SwiftPlantUML extension defined outside the
modelled files. It is taken to be `s + "\n" + line` in exactly one place,
`Text.AppendAsNewLine`. The properties about the order and multiplicity of
placed entries do not depend on this choice. The ones stated with `Lines`
(exact layout) do.

Consequences of the code that a reader might not expect:

- **Claim lookup.** The claim loop looks entries up by full `(name, line)`
  equality (RectangleOptions.swift:39). It iterates a copy of the registry
  taken after the children are resolved (line 36). So every entry with a
  listed name is claimed, including several entries that share a name.
  `Placement.ClaimLoopIsStablePartition` states this exactly.
- **Styling line.** The styling block is always appended
  (PlantUMLScript.swift:25), also when it is empty. When both command lists
  are empty, `defaultStyling` is `""`, so the header holds an empty line
  there (`Script.Header`, `Script.DefaultStyling`).
- **Leading newline.** The first line is appended to an empty string, so an
  empty rectangle renders as `"\n" + open line + "\n}"`
  (`Placement.EmptyRectangleRenders`). Under the assumed `appendAsNewLine`,
  nested blocks therefore begin with a line that holds only the indentation
  (`Scenarios.ChildClaimsBeforeParent`).

## Model

| member | source | states |
|---|---|---|
| Text.ReplaceNewlines | Sources/SwiftPlantUMLFramework/Configuration/RectangleOptions.swift:31 | replacing every newline by newline-plus-two-spaces keeps the newline count and adds exactly two characters per newline |
| Text.UnreplaceReplace | Sources/SwiftPlantUMLFramework/Configuration/RectangleOptions.swift:38 | the replacement is undone by turning every newline-plus-two-spaces back into a newline |
| Text.Indent | Sources/SwiftPlantUMLFramework/Configuration/RectangleOptions.swift:38 | the re-indented text keeps the newline count, is exactly 2·(newlines+1) characters longer, and stripping the indentation gives the input back |
| Text.LinesIndent | Sources/SwiftPlantUMLFramework/Configuration/RectangleOptions.swift:31 | every line of a re-indented block is the corresponding input line with two spaces in front |
| Text.AppendAsNewLineAddsLines | Sources/SwiftPlantUMLFramework/Configuration/RectangleOptions.swift:27 | under the assumed `appendAsNewLine`, appending keeps the text so far as a prefix and adds exactly the appended line's own lines after it |
| Text.AppendEachConcat | Sources/SwiftPlantUMLFramework/Configuration/RectangleOptions.swift:26-47 | appending two runs of lines one after the other equals appending their concatenation |
| Text.AppendEachExtends | Sources/SwiftPlantUMLFramework/Configuration/RectangleOptions.swift:48 | appending keeps the text so far as a prefix, and changes the text iff at least one line is appended |
| Text.LinesAppendEach | Sources/SwiftPlantUMLFramework/PlantUMLScript.swift:57 | each appended piece contributes exactly its own lines, after the lines already there |
| Text.LinesJoinedByNewline | Sources/SwiftPlantUMLFramework/PlantUMLScript.swift:69 | joining with a newline keeps every element's lines, in order; an empty array yields one empty line |
| Rectangles.OpenLine | Sources/SwiftPlantUMLFramework/Configuration/RectangleOptions.swift:27 | the open line `rectangle "<name>" {` holds a line break exactly when the rectangle name does |
| Rectangles.FirstIndex | Sources/SwiftPlantUMLFramework/Configuration/RectangleOptions.swift:39 | the index found holds an equal entry and no earlier index does; nothing is found iff no entry is equal |
| Rectangles.RemoveAt | Sources/SwiftPlantUMLFramework/Configuration/RectangleOptions.swift:40 | removing an index shortens the registry by one and loses exactly the entry at that index |
| Rectangles.ClaimLoop | Sources/SwiftPlantUMLFramework/Configuration/RectangleOptions.swift:36-44 | each claim moves exactly one entry out of the registry into one appended line, so lines plus remaining entries equal the registry size; the exact result is `Placement.ClaimLoopIsStablePartition` |
| Rectangles.RectanglePieces | Sources/SwiftPlantUMLFramework/Configuration/RectangleOptions.swift:27-46 | a rectangle's pieces open with its open line and close with `}`, and the registry never grows; the full content is `Placement.RectangleFollowsPlan` |
| Rectangles.ForestPieces | Sources/SwiftPlantUMLFramework/Configuration/RectangleOptions.swift:26-47 | a forest produces pieces iff it has a rectangle, and the registry never grows; the full content is `Placement.ForestFollowsPlan` |
| Rectangles.Resolve | Sources/SwiftPlantUMLFramework/Configuration/RectangleOptions.swift:23-49 | the text is empty iff the forest is, and the registry never grows; what is placed where is `Placement.ResolveFirstClaimantWins`, `Placement.ResolveConserves` and `Placement.ResolveLeavesUnlisted` |
| Placement.FirstIndexFound | Sources/SwiftPlantUMLFramework/Configuration/RectangleOptions.swift:36-41 | during the own-level loop the lookup for the snapshot entry just reached always succeeds, at the position just after the entries passed over |
| Placement.ClaimLoopSplits | Sources/SwiftPlantUMLFramework/Configuration/RectangleOptions.swift:36-44 | the loop invariant: entries passed over stay in front, and the rest of the snapshot is split by whether its name is listed |
| Placement.ClaimLoopIsStablePartition | Sources/SwiftPlantUMLFramework/Configuration/RectangleOptions.swift:35-45 | the own-level loop claims exactly the entries with a listed name, in registry order, and leaves the others in order |
| Placement.FilterMembers | Sources/SwiftPlantUMLFramework/Configuration/RectangleOptions.swift:37 | an entry is claimed iff it is in the registry with a listed name, and kept iff it is in the registry with an unlisted name |
| Placement.ClaimedUnclaimedPartition | Sources/SwiftPlantUMLFramework/Configuration/RectangleOptions.swift:36-42 | claimed plus kept entries are the registry as a multiset |
| Placement.UnclaimedIsSubsequence | Sources/SwiftPlantUMLFramework/Configuration/RectangleOptions.swift:39-40 | the kept entries are an order-preserving subsequence of the registry |
| Placement.BlockPieces | Sources/SwiftPlantUMLFramework/Configuration/RectangleOptions.swift:27-46 | a rectangle's pieces open with `rectangle "<name>" {` and close with `}` |
| Placement.RectangleFollowsPlan | Sources/SwiftPlantUMLFramework/Configuration/RectangleOptions.swift:27-46 | one rectangle renders its planned block (children first, then its own claims) and leaves the planned registry |
| Placement.ForestFollowsPlan | Sources/SwiftPlantUMLFramework/Configuration/RectangleOptions.swift:23-49 | a forest renders the planned blocks in sibling order and leaves the planned registry |
| Placement.PlanMirrorsForest | Sources/SwiftPlantUMLFramework/Configuration/RectangleOptions.swift:26-34 | every rectangle at every depth gets exactly one block with its own name, nested as the rectangles are, also when it is empty |
| Placement.PlanForestIsSweep | Sources/SwiftPlantUMLFramework/Configuration/RectangleOptions.swift:26-44 | the plan's claims are a sweep over the name sets in processing order: children before the parent, siblings left to right |
| Placement.SweepFirstClaimant | Sources/SwiftPlantUMLFramework/Configuration/RectangleOptions.swift:35-43 | each name set claims exactly the entries it names that no earlier set names; what remains is every entry no set names |
| Placement.SweepConserves | Sources/SwiftPlantUMLFramework/Configuration/RectangleOptions.swift:36-42 | a sweep places every registry entry exactly once |
| Placement.ResolveFirstClaimantWins | Sources/SwiftPlantUMLFramework/Configuration/RectangleOptions.swift:26-44 | every rectangle holds, in registry order, exactly the entries it names that no rectangle processed before it names |
| Placement.ResolveConserves | Sources/SwiftPlantUMLFramework/Configuration/RectangleOptions.swift:36-42 | the entries held by all rectangles plus the registry left behind are the input registry as a multiset: nothing is lost or emitted twice |
| Placement.ResolveLeavesUnlisted | Sources/SwiftPlantUMLFramework/Configuration/RectangleOptions.swift:29-43 | the registry left behind is the input minus every entry named anywhere in the forest, order preserved; no leftover has a listed name |
| Placement.ForestPiecesNonEmpty | Sources/SwiftPlantUMLFramework/Configuration/RectangleOptions.swift:26-27 | a forest produces pieces iff it has a rectangle; an empty forest leaves the registry alone |
| Placement.ResolveEmptyIff | Sources/SwiftPlantUMLFramework/Configuration/RectangleOptions.swift:25-48 | the text is empty iff the forest is, and an empty forest leaves the registry unchanged |
| Placement.NilAndEmptyAgree | Sources/SwiftPlantUMLFramework/Configuration/RectangleOptions.swift:28-35 | nil `values` behave exactly like an empty array whatever the nested rectangles, and nil `rectangles` exactly like an empty array whatever the values |
| Placement.EmptyRectangleRenders | Sources/SwiftPlantUMLFramework/Configuration/RectangleOptions.swift:27-46 | a childless rectangle that names no registry entry still renders its open and close lines and takes nothing |
| Scenarios.SiblingsPlan | Sources/SwiftPlantUMLFramework/Configuration/RectangleOptions.swift:26-44 | with declarations a, b, c of distinct names and siblings listing a, and a and b, the first block holds a, the second only b, and c is left over |
| Scenarios.SiblingsShareAName | Sources/SwiftPlantUMLFramework/Configuration/RectangleOptions.swift:26-44 | with declarations a, b, c and siblings listing a, and a and b, the first takes a, the second only b, and c stays at top level |
| Scenarios.NestedPlan | Sources/SwiftPlantUMLFramework/Configuration/RectangleOptions.swift:28-44 | when a child and its parent both list a, the inner block holds a, the outer block holds only the inner block, and nothing is left over |
| Scenarios.ChildClaimsBeforeParent | Sources/SwiftPlantUMLFramework/Configuration/RectangleOptions.swift:28-44 | when a child and its parent both list a, a lands in the child and the parent's own claim is empty |
| Script.DefaultStyling | Sources/SwiftPlantUMLFramework/PlantUMLScript.swift:91-105 | the styling block is empty iff both command lists in effect are empty |
| Script.StylingLines | Sources/SwiftPlantUMLFramework/PlantUMLScript.swift:95-104 | a non-empty styling block is the start marker, the hide/show lines, the skinparam lines and the end marker; an empty list leaves one empty line |
| Script.DefaultStylingDefaults | Sources/SwiftPlantUMLFramework/PlantUMLScript.swift:92-93 | with nil command lists, the block holds `hide empty members` and `skinparam shadowing false` |
| Script.Header | Sources/SwiftPlantUMLFramework/PlantUMLScript.swift:19-28 | the header has the styling piece plus one piece per configured theme, include and title |
| Script.HeaderReadBack | Sources/SwiftPlantUMLFramework/PlantUMLScript.swift:19-28 | reading the header back by keyword (`!theme `, `!include `, `title `) gives exactly the configured theme, include URL and title, and nothing when unset |
| Script.HeaderOrder | Sources/SwiftPlantUMLFramework/PlantUMLScript.swift:19-28 | theme, include, styling, title in that order; each optional line is present iff its value is configured, with the right text |
| Script.ProcessStructureItem | Sources/SwiftPlantUMLFramework/PlantUMLScript.swift:138-143 | a declaration yields a line iff it has a kind, the kind is class, struct, extension, enum or protocol, and the renderer yields text; the line is the renderer's |
| Script.RenderedLines | Sources/SwiftPlantUMLFramework/PlantUMLScript.swift:60-64 | at most one line per declaration, and a line is rendered iff some declaration renders to it; the order is stated by `Script.PlainContent` |
| Script.Drawn | Sources/SwiftPlantUMLFramework/PlantUMLScript.swift:47-48 | the drawn declarations are exactly the declarations that render to a line, and the k-th of them renders the k-th rendered line |
| Script.Registered | Sources/SwiftPlantUMLFramework/PlantUMLScript.swift:46-51 | the registry holds one entry per drawn declaration, in order: entry k is the k-th drawn declaration's name with the k-th rendered line |
| Script.RegisteredMembers | Sources/SwiftPlantUMLFramework/PlantUMLScript.swift:47-50 | an entry is in the registry iff some drawn declaration has that name and renders to that line |
| Script.BuildRegistry | Sources/SwiftPlantUMLFramework/PlantUMLScript.swift:46-51 | the registry-building loop computes the registry, whose lines are the rendered lines in order |
| Script.PlainContent | Sources/SwiftPlantUMLFramework/PlantUMLScript.swift:60-64 | the plain branch's loop appends every rendered line in order: the content is two empty lines, then the rendered lines' lines |
| Script.PlainBody | Sources/SwiftPlantUMLFramework/PlantUMLScript.swift:60-64 | without rectangles the main content is two empty lines followed by every rendered line, in declaration order |
| Script.RectangleBody | Sources/SwiftPlantUMLFramework/PlantUMLScript.swift:45-58 | with rectangles the main content is the rectangle block when non-empty (iff the forest is non-empty), then exactly the entries no rectangle names, in declaration order |
| Script.EveryRenderedLineOnce | Sources/SwiftPlantUMLFramework/PlantUMLScript.swift:46-58 | with rectangles, the lines of the entries the rectangles hold plus the lines left at top level are the rendered lines, each counted as often as it was rendered |
| Script.EmptyRectanglesAreNoRectangles | Sources/SwiftPlantUMLFramework/PlantUMLScript.swift:45-65 | an empty rectangle list gives the same main content as no rectangles |
| Script.MainContentOpensWithNewline | Sources/SwiftPlantUMLFramework/PlantUMLScript.swift:31-65 | the main content (`Script.MainContent`) opens with the newline it is initialised to, in both branches; its full layout is `Script.PlainBody` and `Script.RectangleBody` |
| Script.Definitions | Sources/SwiftPlantUMLFramework/PlantUMLScript.swift:69 | the main content is kept verbatim in front, followed by a newline; the layout of the rest is `Script.DefinitionsLines` |
| Script.DefinitionsLines | Sources/SwiftPlantUMLFramework/PlantUMLScript.swift:69 | the definitions are the main content's lines, then each connection block's lines; an empty block still contributes one empty line |
| Script.ScriptText | Sources/SwiftPlantUMLFramework/PlantUMLScript.swift:18-72 | the script text starts with `@startuml` and goes on past it; its full layout is `Script.ScriptLines` |
| Script.ScriptLines | Sources/SwiftPlantUMLFramework/PlantUMLScript.swift:18-72 | the script's lines are `@startuml`, the header pieces' lines, the definitions' lines and `@enduml` |
| Script.ScriptFrame | Sources/SwiftPlantUMLFramework/PlantUMLScript.swift:18-72 | the first line of the script is `@startuml` and the last is `@enduml` |

## Left out

- `encodeText` and `PlantUMLText` (PlantUMLScript.swift:86-88): Deflate compression and a base64-like transport encoding, whose implementation is not part of this model.
- `populateNestedTypes`, `orderedByProtocolsFirstExtensionsLast` and `mergeExtensions` (PlantUMLScript.swift:35-43): these are defined elsewhere. They are parameters of `Script.Environment`, applied under the same configuration flags and in the same order (`Script.Adjusted`). The merged-member indicator is folded into the merge function. Script.Adjusted therefore has no contract and no row: beyond which passes run, under which flags and in which order, nothing about its result can be stated.
- `item.plantuml(context:)` (PlantUMLScript.swift:142) is the renderer parameter.
  - Its effect on the context is not modelled.
  - `collectNestedTypeConnections` (67) is not modelled either.
  - The connection lists joined at line 69 are inputs (`Environment.connections`, `Environment.extnConnections`).
- `Date` and `Logger` (PlantUMLScript.swift:16, 74): timing and logging only.
- `Codable` decoding and the class reference semantics of `RectangleOptions` (RectangleOptions.swift:10): the node is an inductive datatype, so cycles cannot occur. The optional children array is its own datatype, `Nested`, so that recursion through it terminates.
- The private `getRectLine` (PlantUMLScript.swift:107-136): it is never called. It differs from the resolver only in leaving the rectangle name unquoted.
- The force-unwrap `element.name!` (PlantUMLScript.swift:49): it is a precondition, `Script.RenderedHaveNames`, required only when rectangles are configured.
- String comparison: Swift compares strings by canonical equivalence. Here strings are sequences of characters compared element by element, with no Unicode normalisation.
- `Theme` is represented by its raw value.
- `ElementKind` cases other than the five drawn kinds are collapsed into `Other`.
- Text.AppendAsNewLine: its definition is not part of this model. It is assumed to be `s + "\n" + line`, also when `s` is empty. The `Lines`-based layout properties, the exact texts in `Scenarios`, and `Placement.EmptyRectangleRenders` depend on this assumption.
- Scenarios.SiblingsShareAName: states the rendered text as the appended pieces, not as one string literal.
- Scenarios.ChildClaimsBeforeParent: states the rendered text as the appended pieces, not as one string literal.
- Script.EveryRenderedLineOnce: states placement with multiplicity only; the order inside blocks and among the leftovers is stated separately by `Placement.ForestFollowsPlan` and `Script.RectangleBody`.
