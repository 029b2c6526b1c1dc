/**
  `PlantUMLScript.init`: the text of a PlantUML script, assembled from the
  configuration, the declarations and the connection lists. The header
  (theme, include, styling, title) comes first, then the declarations, either
  one line each in order or grouped into rectangles with the unclaimed ones
  after the group, then the two connection blocks, then the footer.
*/
module Script {
  import opened Options
  import opened Text
  import opened Rectangles
  import opened Placement

  // ---------------------------------------------------------------------
  // Declarations and the environment the script reads
  // ---------------------------------------------------------------------

  /** The element kinds the script tells apart; every other `ElementKind` is `Other`. */
  datatype Kind = Class | Struct | Extension | Enum | Protocol | Other

  /**
    A declaration (`SyntaxStructure`) as far as the script looks at it: its
    kind and name, both optional, and the rest of it, which only the
    renderer reads.
  */
  datatype Item = Item(kind: Option<Kind>, name: Option<string>, detail: string)

  /** The parts of `Configuration` the script reads. The theme is given by its raw value. */
  datatype Configuration = Configuration(
    theme: Option<string>,
    includeRemoteURL: Option<string>,
    title: Option<string>,
    hideShowCommands: Option<seq<string>>,
    skinparamCommands: Option<seq<string>>,
    showNestedTypes: bool,
    shallExtensionsBeMerged: bool,
    rectangles: Option<seq<Rectangle>>)

  /**
    What the script calls but does not define: the three declaration
    pre-processing passes, the per-declaration renderer, and the connection
    lines the context has collected by the time the definitions are joined.
  */
  datatype Environment = Environment(
    populateNestedTypes: seq<Item> -> seq<Item>,
    orderedByProtocolsFirstExtensionsLast: seq<Item> -> seq<Item>,
    mergeExtensions: seq<Item> -> seq<Item>,
    render: Item -> Option<string>,
    connections: seq<string>,
    extnConnections: seq<string>)

  const StartLine: string := "@startuml"
  const EndLine: string := "@enduml"
  const StyleStart: string := "' STYLE START"
  const StyleEnd: string := "' STYLE END"
  const DefaultHideShow: seq<string> := ["hide empty members"]
  const DefaultSkinparam: seq<string> := ["skinparam shadowing false"]

  // ---------------------------------------------------------------------
  // Header
  // ---------------------------------------------------------------------

  /** The hide/show commands in effect: the configured ones, or the default when none are configured. */
  function HideShow(cfg: Configuration): seq<string> {
    cfg.hideShowCommands.GetOr(DefaultHideShow)
  }

  /** The skinparam commands in effect: the configured ones, or the default when none are configured. */
  function Skinparam(cfg: Configuration): seq<string> {
    cfg.skinparamCommands.GetOr(DefaultSkinparam)
  }

  /** `defaultStyling`: nothing when both command lists are empty, otherwise both lists between the style markers. */
  function DefaultStyling(cfg: Configuration): (s: string)
    ensures s == "" <==> HideShow(cfg) == [] && Skinparam(cfg) == []
  {
    var commands := HideShow(cfg);
    var params := Skinparam(cfg);
    if commands == [] && params == [] then ""
    else StyleStart + "\n" + JoinedByNewline(commands) + "\n" + JoinedByNewline(params) + "\n" + StyleEnd
  }

  /** The lines a joined command list occupies: one per command line, or a single empty one when the list is empty. */
  function BlockLines(ss: seq<string>): seq<string> {
    if |ss| == 0 then [""] else FlatLines(ss)
  }

  /** A non-empty styling block is the start marker, the hide/show lines, the skinparam lines and the end marker. */
  lemma StylingLines(cfg: Configuration)
    requires HideShow(cfg) != [] || Skinparam(cfg) != []
    ensures Lines(DefaultStyling(cfg))
         == [StyleStart] + BlockLines(HideShow(cfg)) + BlockLines(Skinparam(cfg)) + [StyleEnd]
  {
    FourPartLines(StyleStart, JoinedByNewline(HideShow(cfg)), JoinedByNewline(Skinparam(cfg)), StyleEnd);
    LinesJoinedByNewline(HideShow(cfg));
    LinesJoinedByNewline(Skinparam(cfg));
  }

  /** With no commands configured, the styling block hides empty members and turns shadowing off. */
  lemma DefaultStylingDefaults(cfg: Configuration)
    requires cfg.hideShowCommands.None? && cfg.skinparamCommands.None?
    ensures DefaultStyling(cfg)
         == StyleStart + "\n" + "hide empty members" + "\n" + "skinparam shadowing false" + "\n" + StyleEnd
  {
    assert JoinedByNewline(DefaultHideShow) == "hide empty members";
    assert JoinedByNewline(DefaultSkinparam) == "skinparam shadowing false";
  }

  /** A header line present only when its configuration value is. */
  function OptionalLine(prefix: string, v: Option<string>): seq<string> {
    match v
    case Some(x) => [prefix + x]
    case None => []
  }

  /** The header pieces appended after `@startuml`: theme, include, styling, title. */
  function Header(cfg: Configuration): (h: seq<string>)
    ensures |h| == 1 + |OptionalLine("!theme ", cfg.theme)| + |OptionalLine("!include ", cfg.includeRemoteURL)|
                    + |OptionalLine("title ", cfg.title)|
  {
    OptionalLine("!theme ", cfg.theme) + OptionalLine("!include ", cfg.includeRemoteURL)
    + [DefaultStyling(cfg)] + OptionalLine("title ", cfg.title)
  }

  /** Where each header piece sits: the theme and include lines first when present, the styling always, the title last when present. */
  lemma HeaderOrder(cfg: Configuration)
    ensures var h := Header(cfg);
      var t := |OptionalLine("!theme ", cfg.theme)|;
      var i := |OptionalLine("!include ", cfg.includeRemoteURL)|;
      (cfg.theme.Some? <==> t == 1) &&
      (cfg.includeRemoteURL.Some? <==> i == 1) &&
      (cfg.title.Some? <==> |h| == t + i + 2) &&
      (cfg.theme.Some? ==> h[0] == "!theme " + cfg.theme.value) &&
      (cfg.includeRemoteURL.Some? ==> h[t] == "!include " + cfg.includeRemoteURL.value) &&
      h[t + i] == DefaultStyling(cfg) &&
      (cfg.title.Some? ==> h[t + i + 1] == "title " + cfg.title.value)
  {
  }

  /** Whether a header line begins with the given keyword. */
  predicate StartsWith(line: string, prefix: string) {
    |prefix| <= |line| && line[..|prefix|] == prefix
  }

  /** Reading a header back: the text after the first line that begins with the keyword, if any. */
  function Lookup(h: seq<string>, prefix: string): (v: Option<string>)
    ensures v.Some? ==> exists k :: 0 <= k < |h| && h[k] == prefix + v.value
  {
    if |h| == 0 then None
    else if StartsWith(h[0], prefix) then
      assert h[0] == prefix + h[0][|prefix|..];
      Some(h[0][|prefix|..])
    else
      var rest := Lookup(h[1..], prefix);
      if rest.Some? then
        var k :| 0 <= k < |h[1..]| && h[1..][k] == prefix + rest.value;
        assert h[k + 1] == prefix + rest.value;
        rest
      else rest
  }

  lemma {:induction false} LookupConcat(a: seq<string>, b: seq<string>, prefix: string)
    ensures Lookup(a + b, prefix) == if Lookup(a, prefix).Some? then Lookup(a, prefix) else Lookup(b, prefix)
  {
    if |a| > 0 {
      assert (a + b)[0] == a[0] && (a + b)[1..] == a[1..] + b;
      LookupConcat(a[1..], b, prefix);
    } else {
      assert a + b == b;
    }
  }

  /** An optional header line is read back under its own keyword and is invisible to another keyword it does not begin with. */
  lemma OptionalLineLookup(prefix: string, v: Option<string>, other: string)
    ensures Lookup(OptionalLine(prefix, v), prefix) == v
    ensures v.Some? && !StartsWith(prefix + v.value, other) ==> Lookup(OptionalLine(prefix, v), other) == None
  {
    if v.Some? {
      var line := prefix + v.value;
      assert line[..|prefix|] == prefix && line[|prefix|..] == v.value;
      var none: seq<string> := [];
      assert [line][1..] == none;
    }
  }

  /** The keywords of the header lines tell them apart: no header line begins with another line's keyword. */
  lemma KeywordsDiffer(x: string)
    ensures !StartsWith("!theme " + x, "!include ") && !StartsWith("!theme " + x, "title ")
    ensures !StartsWith("!include " + x, "!theme ") && !StartsWith("!include " + x, "title ")
    ensures !StartsWith("title " + x, "!theme ") && !StartsWith("title " + x, "!include ")
  {
    assert ("!theme " + x)[1] == 't' && ("!include " + x)[1] == 'i';
    assert ("!theme " + x)[0] == '!' && ("!include " + x)[0] == '!' && ("title " + x)[0] == 't';
  }

  /** The styling block is never read as a theme, include or title line. */
  lemma StylingIsNoKeyword(cfg: Configuration)
    ensures !StartsWith(DefaultStyling(cfg), "!theme ") && !StartsWith(DefaultStyling(cfg), "!include ")
    ensures !StartsWith(DefaultStyling(cfg), "title ")
  {
    var s := DefaultStyling(cfg);
    if s != "" {
      assert s[0] == StyleStart[0] == '\'';
    }
  }

  /**
    The header can be read back: looking up the theme, include and title
    keywords in the header pieces gives exactly the configured values.
  */
  lemma {:induction false} HeaderReadBack(cfg: Configuration)
    ensures Lookup(Header(cfg), "!theme ") == cfg.theme
    ensures Lookup(Header(cfg), "!include ") == cfg.includeRemoteURL
    ensures Lookup(Header(cfg), "title ") == cfg.title
  {
    var t := OptionalLine("!theme ", cfg.theme);
    var i := OptionalLine("!include ", cfg.includeRemoteURL);
    var st := [DefaultStyling(cfg)];
    var ti := OptionalLine("title ", cfg.title);
    assert Header(cfg) == t + (i + (st + ti));
    StylingIsNoKeyword(cfg);
    var none: seq<string> := [];
    assert st[0] == DefaultStyling(cfg) && st[1..] == none;
    if cfg.theme.Some? { KeywordsDiffer(cfg.theme.value); }
    if cfg.includeRemoteURL.Some? { KeywordsDiffer(cfg.includeRemoteURL.value); }
    if cfg.title.Some? { KeywordsDiffer(cfg.title.value); }
    LookupConcat(t, i + (st + ti), "!theme ");
    LookupConcat(t, i + (st + ti), "!include ");
    LookupConcat(t, i + (st + ti), "title ");
    LookupConcat(i, st + ti, "!theme ");
    LookupConcat(i, st + ti, "!include ");
    LookupConcat(i, st + ti, "title ");
    LookupConcat(st, ti, "!theme ");
    LookupConcat(st, ti, "!include ");
    LookupConcat(st, ti, "title ");
    OptionalLineLookup("!theme ", cfg.theme, "!include ");
    OptionalLineLookup("!theme ", cfg.theme, "title ");
    OptionalLineLookup("!include ", cfg.includeRemoteURL, "!theme ");
    OptionalLineLookup("!include ", cfg.includeRemoteURL, "title ");
    OptionalLineLookup("title ", cfg.title, "!theme ");
    OptionalLineLookup("title ", cfg.title, "!include ");
  }

  // ---------------------------------------------------------------------
  // Declarations
  // ---------------------------------------------------------------------

  /** The kinds whose declarations are drawn. */
  predicate Processable(k: Kind) {
    k in {Class, Struct, Extension, Enum, Protocol}
  }

  /** `processStructureItem`: the rendered text of a declaration of a drawn kind, or nothing. */
  function ProcessStructureItem(item: Item, render: Item -> Option<string>): (r: Option<string>)
    ensures r.Some? <==> item.kind.Some? && !item.kind.value.Other? && render(item).Some?
    ensures r.Some? ==> r == render(item)
  {
    match item.kind
    case None => None
    case Some(k) => if Processable(k) then render(item) else None
  }

  /** The declarations after the pre-processing passes, in the order the script applies them. */
  function Adjusted(cfg: Configuration, env: Environment, items: seq<Item>): seq<Item> {
    var populated := if cfg.showNestedTypes then env.populateNestedTypes(items) else items;
    var ordered := env.orderedByProtocolsFirstExtensionsLast(populated);
    if cfg.shallExtensionsBeMerged then env.mergeExtensions(ordered) else ordered
  }

  /** The rendered lines of the declarations, in declaration order, skipping those that render to nothing. */
  function RenderedLines(items: seq<Item>, render: Item -> Option<string>): (ls: seq<string>)
    ensures |ls| <= |items|
    ensures forall l :: l in ls <==> exists i :: 0 <= i < |items| && ProcessStructureItem(items[i], render) == Some(l)
    decreases |items|
  {
    if |items| == 0 then []
    else
      var front := items[..|items| - 1];
      assert forall i :: 0 <= i < |front| ==> front[i] == items[i];
      var init := RenderedLines(front, render);
      match ProcessStructureItem(items[|items| - 1], render)
      case Some(line) => init + [line]
      case None => init
  }

  /** The declarations that are drawn, in declaration order: the ones the rendered lines come from. */
  function Drawn(items: seq<Item>, render: Item -> Option<string>): (d: seq<Item>)
    ensures |d| == |RenderedLines(items, render)|
    ensures forall k :: 0 <= k < |d| ==> ProcessStructureItem(d[k], render) == Some(RenderedLines(items, render)[k])
    ensures forall x :: x in d <==> x in items && ProcessStructureItem(x, render).Some?
    decreases |items|
  {
    if |items| == 0 then []
    else
      var init := items[..|items| - 1];
      var last := items[|items| - 1];
      assert items == init + [last];
      match ProcessStructureItem(last, render)
      case Some(_) => Drawn(init, render) + [last]
      case None => Drawn(init, render)
  }

  /** Every rendered declaration has a name (the script force-unwraps it when rectangles are configured). */
  predicate RenderedHaveNames(items: seq<Item>, render: Item -> Option<string>) {
    forall i :: 0 <= i < |items| && ProcessStructureItem(items[i], render).Some? ==> items[i].name.Some?
  }

  /** The registry the rectangle branch fills: one `(name, line)` entry per rendered declaration, in order. */
  function Registered(items: seq<Item>, render: Item -> Option<string>): (reg: Registry)
    requires RenderedHaveNames(items, render)
    ensures |reg| == |Drawn(items, render)|
    ensures forall k :: 0 <= k < |reg| ==>
      Drawn(items, render)[k].name.Some? && reg[k] == Entry(Drawn(items, render)[k].name.value, RenderedLines(items, render)[k])
    decreases |items|
  {
    if |items| == 0 then []
    else
      var last := items[|items| - 1];
      var init := Registered(items[..|items| - 1], render);
      match ProcessStructureItem(last, render)
      case Some(line) => init + [Entry(last.name.value, line)]
      case None => init
  }

  /** The lines of registry entries, in order. */
  function EntryLines(reg: Registry): (ls: seq<string>)
    ensures |ls| == |reg|
    ensures forall k :: 0 <= k < |reg| ==> ls[k] == reg[k].line
  {
    seq(|reg|, k requires 0 <= k < |reg| => reg[k].line)
  }

  /** A declaration has an entry in the registry exactly when it is drawn, under its own name and with its rendered line. */
  lemma RegisteredMembers(items: seq<Item>, render: Item -> Option<string>, e: Entry)
    requires RenderedHaveNames(items, render)
    ensures e in Registered(items, render)
        <==> exists i :: 0 <= i < |items| && items[i].name == Some(e.name) && ProcessStructureItem(items[i], render) == Some(e.line)
  {
    if e in Registered(items, render) {
      RegisteredEntryIsDrawn(items, render, e);
    }
    if exists i :: 0 <= i < |items| && items[i].name == Some(e.name) && ProcessStructureItem(items[i], render) == Some(e.line) {
      var i :| 0 <= i < |items| && items[i].name == Some(e.name) && ProcessStructureItem(items[i], render) == Some(e.line);
      DrawnIsRegistered(items, render, i);
    }
  }

  lemma RegisteredEntryIsDrawn(items: seq<Item>, render: Item -> Option<string>, e: Entry)
    requires RenderedHaveNames(items, render)
    requires e in Registered(items, render)
    ensures exists i :: 0 <= i < |items| && items[i].name == Some(e.name) && ProcessStructureItem(items[i], render) == Some(e.line)
  {
    var reg, d := Registered(items, render), Drawn(items, render);
    var k :| 0 <= k < |reg| && reg[k] == e;
    assert d[k] in d;
    var i :| 0 <= i < |items| && items[i] == d[k];
    assert items[i].name == Some(e.name) && ProcessStructureItem(items[i], render) == Some(e.line);
  }

  lemma DrawnIsRegistered(items: seq<Item>, render: Item -> Option<string>, i: int)
    requires RenderedHaveNames(items, render)
    requires 0 <= i < |items| && ProcessStructureItem(items[i], render).Some?
    ensures Entry(items[i].name.value, ProcessStructureItem(items[i], render).value) in Registered(items, render)
  {
    var reg, d := Registered(items, render), Drawn(items, render);
    assert items[i] in d;
    var k :| 0 <= k < |d| && d[k] == items[i];
    assert reg[k] == Entry(items[i].name.value, ProcessStructureItem(items[i], render).value);
  }

  /** The registry-building loop of the rectangle branch. */
  method BuildRegistry(items: seq<Item>, render: Item -> Option<string>) returns (reg: Registry)
    requires RenderedHaveNames(items, render)
    ensures reg == Registered(items, render)
    ensures EntryLines(reg) == RenderedLines(items, render)
  {
    reg := [];
    for i := 0 to |items|
      invariant RenderedHaveNames(items[..i], render)
      invariant reg == Registered(items[..i], render)
    {
      assert items[..i + 1][..i] == items[..i];
      assert items[..i + 1][i] == items[i];
      match ProcessStructureItem(items[i], render)
      case Some(text) =>
        reg := reg + [Entry(items[i].name.value, text)];
      case None =>
    }
    assert items[..|items|] == items;
  }

  /** The plain branch's loop: each rendered line appended to the main content, in order. */
  method PlainContent(items: seq<Item>, render: Item -> Option<string>) returns (mainContent: string)
    ensures mainContent == AppendEach("\n", RenderedLines(items, render))
    ensures Lines(mainContent) == ["", ""] + FlatLines(RenderedLines(items, render))
  {
    mainContent := "\n";
    for i := 0 to |items|
      invariant mainContent == AppendEach("\n", RenderedLines(items[..i], render))
    {
      assert items[..i + 1][..i] == items[..i];
      assert items[..i + 1][i] == items[i];
      match ProcessStructureItem(items[i], render)
      case Some(text) =>
        AppendEachSnoc("\n", RenderedLines(items[..i], render), text);
        mainContent := AppendAsNewLine(mainContent, text);
      case None =>
    }
    assert items[..|items|] == items;
    NewlineOpenedLines(RenderedLines(items, render));
  }

  // ---------------------------------------------------------------------
  // Body and script
  // ---------------------------------------------------------------------

  /** Rectangles need the names of the rendered declarations. */
  predicate Renderable(cfg: Configuration, items: seq<Item>, render: Item -> Option<string>) {
    cfg.rectangles.Some? ==> RenderedHaveNames(items, render)
  }

  /**
    The main content: a leading newline, then either every rendered line in
    order, or the rectangle block (when it is not empty) followed by the
    lines nobody claimed, in registry order.
  */
  function MainContent(cfg: Configuration, items: seq<Item>, render: Item -> Option<string>): string
    requires Renderable(cfg, items, render)
  {
    match cfg.rectangles
    case None => AppendEach("\n", RenderedLines(items, render))
    case Some(rects) =>
      var (block, rest) := Resolve(rects, Registered(items, render));
      AppendEach("\n", (if block != "" then [block] else []) + EntryLines(rest))
  }

  /** Both branches start from `mainContent = newLine`, so the main content always opens with that newline. */
  lemma MainContentOpensWithNewline(cfg: Configuration, items: seq<Item>, render: Item -> Option<string>)
    requires Renderable(cfg, items, render)
    ensures |MainContent(cfg, items, render)| >= 1 && MainContent(cfg, items, render)[0] == '\n'
  {
    var lines := match cfg.rectangles
      case None => RenderedLines(items, render)
      case Some(rects) =>
        var (block, rest) := Resolve(rects, Registered(items, render));
        (if block != "" then [block] else []) + EntryLines(rest);
    assert MainContent(cfg, items, render) == AppendEach("\n", lines);
    AppendEachFirst("\n", lines);
  }



  /**
    The main content followed by the two connection blocks, each after a
    newline even when empty. The main content is kept verbatim in front;
    the line layout of the rest is stated by `DefinitionsLines`.
  */
  function Definitions(mainContent: string, connections: seq<string>, extnConnections: seq<string>): (d: string)
    ensures mainContent <= d && |d| > |mainContent| && d[|mainContent|] == '\n'
  {
    mainContent + "\n" + JoinedByNewline(connections) + "\n" + JoinedByNewline(extnConnections)
  }

  /** The whole script text. */
  function ScriptText(cfg: Configuration, env: Environment, items: seq<Item>): (t: string)
    requires Renderable(cfg, Adjusted(cfg, env, items), env.render)
    ensures |t| > |StartLine| && t[..|StartLine|] == StartLine
  {
    var main := MainContent(cfg, Adjusted(cfg, env, items), env.render);
    var pieces := Header(cfg) + [Definitions(main, env.connections, env.extnConnections), EndLine];
    AppendEachExtends(StartLine, pieces);
    AppendEach(StartLine, pieces)
  }

  /** The connection blocks contribute their own lines after the main content; an empty block leaves one empty line. */
  lemma DefinitionsLines(mainContent: string, connections: seq<string>, extnConnections: seq<string>)
    ensures Lines(Definitions(mainContent, connections, extnConnections))
         == Lines(mainContent) + BlockLines(connections) + BlockLines(extnConnections)
  {
    LinesJoin(mainContent + "\n" + JoinedByNewline(connections), JoinedByNewline(extnConnections));
    LinesJoin(mainContent, JoinedByNewline(connections));
    LinesJoinedByNewline(connections);
    LinesJoinedByNewline(extnConnections);
  }

  /** The opening and closing lines are single lines. */
  lemma FrameHasNoNewline()
    ensures '\n' !in StartLine && '\n' !in EndLine
  {
  }

  /** The script opens with `@startuml`, then the header, then the definitions, and closes with `@enduml`. */
  lemma ScriptLines(cfg: Configuration, env: Environment, items: seq<Item>)
    requires Renderable(cfg, Adjusted(cfg, env, items), env.render)
    ensures var main := MainContent(cfg, Adjusted(cfg, env, items), env.render);
      Lines(ScriptText(cfg, env, items))
        == [StartLine] + FlatLines(Header(cfg))
           + Lines(Definitions(main, env.connections, env.extnConnections)) + [EndLine]
  {
    var main := MainContent(cfg, Adjusted(cfg, env, items), env.render);
    var defs := Definitions(main, env.connections, env.extnConnections);
    FrameHasNoNewline();
    FramedLinesLast(StartLine, Header(cfg), defs, EndLine);
  }


  /** The first line of the script is `@startuml` and the last is `@enduml`. */
  lemma ScriptFrame(cfg: Configuration, env: Environment, items: seq<Item>)
    requires Renderable(cfg, Adjusted(cfg, env, items), env.render)
    ensures var ls := Lines(ScriptText(cfg, env, items));
      |ls| >= 2 && ls[0] == StartLine && ls[|ls| - 1] == EndLine
  {
    ScriptLines(cfg, env, items);
  }

  /** Without rectangles, the main content is two empty lines and then every rendered line, in declaration order. */
  lemma PlainBody(cfg: Configuration, items: seq<Item>, render: Item -> Option<string>)
    requires cfg.rectangles.None?
    ensures Lines(MainContent(cfg, items, render)) == ["", ""] + FlatLines(RenderedLines(items, render))
  {
    NewlineOpenedLines(RenderedLines(items, render));
  }

  /**
    With rectangles, the main content holds the rectangle block when it is
    not empty, then exactly the registry entries whose name no rectangle
    lists anywhere, in declaration order; the block is empty exactly when
    the forest is.
  */
  lemma RectangleBody(cfg: Configuration, items: seq<Item>, render: Item -> Option<string>)
    requires cfg.rectangles.Some? && RenderedHaveNames(items, render)
    ensures var rects := cfg.rectangles.value;
      var reg := Registered(items, render);
      var block := Resolve(rects, reg).0;
      (block == "" <==> rects == []) &&
      MainContent(cfg, items, render)
        == AppendEach("\n", (if block != "" then [block] else []) + EntryLines(Unclaimed(reg, AllNames(rects))))
  {
    var rects, reg := cfg.rectangles.value, Registered(items, render);
    ResolveEmptyIff(rects, reg);
    ResolveLeavesUnlisted(rects, reg);
  }

  /** The lines of two registries laid end to end. */
  lemma EntryLinesConcat(a: Registry, b: Registry)
    ensures EntryLines(a + b) == EntryLines(a) + EntryLines(b)
  {
  }

  /** Taking the entry at `j` out of a registry removes one copy of it. */
  lemma RemoveEntry(y: Registry, j: int)
    requires 0 <= j < |y|
    ensures multiset(y[..j] + y[j + 1..]) == multiset(y) - multiset{y[j]}
  {
    assert y == y[..j] + [y[j]] + y[j + 1..];
  }

  /** The lines of a registry around its entry at `j`, with and without that entry. */
  lemma EntryLinesAround(y: Registry, j: int)
    requires 0 <= j < |y|
    ensures EntryLines(y) == EntryLines(y[..j]) + [y[j].line] + EntryLines(y[j + 1..])
    ensures EntryLines(y[..j] + y[j + 1..]) == EntryLines(y[..j]) + EntryLines(y[j + 1..])
  {
    assert y == y[..j] + [y[j]] + y[j + 1..];
    EntryLinesConcat(y[..j] + [y[j]], y[j + 1..]);
    EntryLinesConcat(y[..j], [y[j]]);
    EntryLinesConcat(y[..j], y[j + 1..]);
  }

  lemma RemoveMatching(x: Registry, y: Registry, j: int)
    requires multiset(x) == multiset(y) && |x| > 0 && 0 <= j < |y| && y[j] == x[0]
    ensures multiset(x[1..]) == multiset(y[..j] + y[j + 1..])
  {
    RemoveEntry(y, j);
    assert x == [x[0]] + x[1..];
  }

  lemma PermuteStep(x: Registry, y: Registry, j: int)
    requires |x| > 0 && 0 <= j < |y| && y[j] == x[0]
    requires multiset(EntryLines(x[1..])) == multiset(EntryLines(y[..j] + y[j + 1..]))
    ensures multiset(EntryLines(x)) == multiset(EntryLines(y))
  {
    assert x == [x[0]] + x[1..];
    EntryLinesConcat([x[0]], x[1..]);
    assert EntryLines([x[0]]) == [x[0].line];
    EntryLinesAround(y, j);
  }

  lemma {:induction false} EntryLinesPermute(x: Registry, y: Registry)
    requires multiset(x) == multiset(y)
    ensures multiset(EntryLines(x)) == multiset(EntryLines(y))
    decreases |x|
  {
    if |x| > 0 {
      assert x[0] in multiset(y);
      var j :| 0 <= j < |y| && y[j] == x[0];
      RemoveMatching(x, y, j);
      EntryLinesPermute(x[1..], y[..j] + y[j + 1..]);
      PermuteStep(x, y, j);
    } else {
      assert |y| == |multiset(y)| == |multiset(x)| == 0;
    }
  }




  /**
    With rectangles, every rendered line is placed exactly once: the lines
    of the entries the rectangles claim, together with the lines left at
    top level, are the rendered lines, counted with multiplicity.
  */
  lemma EveryRenderedLineOnce(cfg: Configuration, items: seq<Item>, render: Item -> Option<string>)
    requires cfg.rectangles.Some? && RenderedHaveNames(items, render)
    ensures var rects := cfg.rectangles.value;
      var reg := Registered(items, render);
      multiset(EntryLines(Flatten(ClaimsOf(PlanForest(rects, reg).0)))) + multiset(EntryLines(Resolve(rects, reg).1))
        == multiset(RenderedLines(items, render))
  {
    var rects, reg := cfg.rectangles.value, Registered(items, render);
    var claimed := Flatten(ClaimsOf(PlanForest(rects, reg).0));
    var left := Resolve(rects, reg).1;
    ResolveConserves(rects, reg);
    assert multiset(claimed + left) == multiset(reg);
    EntryLinesPermute(claimed + left, reg);
    EntryLinesConcat(claimed, left);
    assert EntryLines(reg) == RenderedLines(items, render);
  }

  /** An empty rectangle list gives the same main content as no rectangles at all. */
  /** The registry's lines, in order, are the rendered lines. */
  lemma RegisteredLines(items: seq<Item>, render: Item -> Option<string>)
    requires RenderedHaveNames(items, render)
    ensures EntryLines(Registered(items, render)) == RenderedLines(items, render)
  {
  }

  /** With an empty rectangle list the block is empty and every registered line follows the opening newline. */
  lemma EmptyRectanglesContent(cfg: Configuration, items: seq<Item>, render: Item -> Option<string>)
    requires cfg.rectangles == Some([]) && RenderedHaveNames(items, render)
    ensures MainContent(cfg, items, render) == AppendEach("\n", EntryLines(Registered(items, render)))
  {
    var reg := Registered(items, render);
    ResolveEmptyIff([], reg);
    var none: seq<string> := [];
    assert none + EntryLines(reg) == EntryLines(reg);
  }

  lemma EmptyRectanglesAreNoRectangles(cfg: Configuration, items: seq<Item>, render: Item -> Option<string>)
    requires cfg.rectangles == Some([]) && RenderedHaveNames(items, render)
    ensures MainContent(cfg, items, render) == MainContent(cfg.(rectangles := None), items, render)
  {
    EmptyRectanglesContent(cfg, items, render);
    RegisteredLines(items, render);
  }
}
