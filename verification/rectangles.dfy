/**
  `RectangleOptions` and `getRectanglesLine`: the user-configured tree of named
  rectangles, and the recursive walk that claims rendered declarations from
  the registry of `(name, line)` pairs, re-indents them and wraps them in
  `rectangle "<name>" { ... }` blocks.
*/
module Rectangles {
  import opened Options
  import opened Text

  /** A `RectangleOptions` node: a name, the declaration names it claims, and nested rectangles. */
  datatype Rectangle = Rectangle(name: string, values: Option<seq<string>>, rectangles: Nested)

  /** The optional `rectangles` array of a node (a datatype of its own so that recursion through it terminates). */
  datatype Nested = NoRectangles | Rectangles(list: seq<Rectangle>)

  /** One element of `namesAndLines`: a declaration's name and its rendered text. */
  datatype Entry = Entry(name: string, line: string)

  /** The registry of rendered declarations not yet placed anywhere. */
  type Registry = seq<Entry>

  /** The line that opens a rectangle block. */
  function OpenLine(name: string): (l: string)
    ensures '\n' in l <==> '\n' in name
  {
    "rectangle \"" + name + "\" {"
  }

  /** The line that closes a rectangle block. */
  const CloseLine: string := "}"

  /** The names listed in `values`, as a set. */
  function NameSet(values: seq<string>): (names: set<string>)
    ensures forall v :: v in names <==> v in values
  {
    set v | v in values
  }

  /** The names a rectangle claims at its own level (none when `values` is nil). */
  function OwnNames(r: Rectangle): set<string> {
    match r.values
    case Some(vs) => NameSet(vs)
    case None => {}
  }

  /** `firstIndex(where:)` with full `(name, line)` equality. */
  function FirstIndex(live: Registry, e: Entry): (r: Option<nat>)
    ensures r.Some? ==> r.value < |live| && live[r.value] == e
    ensures r.Some? ==> forall j :: 0 <= j < r.value ==> live[j] != e
    ensures r.None? <==> e !in live
  {
    if |live| == 0 then None
    else if live[0] == e then Some(0)
    else match FirstIndex(live[1..], e)
      case Some(i) => Some(i + 1)
      case None => None
  }

  /** `remove(at:)`. */
  function RemoveAt(live: Registry, i: nat): (r: Registry)
    requires i < |live|
    ensures |r| == |live| - 1
    ensures multiset(r) + multiset{live[i]} == multiset(live)
  {
    assert live == live[..i] + [live[i]] + live[i + 1..];
    live[..i] + live[i + 1..]
  }

  /**
    The own-level claim loop of getRectanglesLine. It walks `snapshot`, the
    value of the registry taken when the loop starts, while removing claimed
    entries from `live`, the registry itself; the removal looks the entry up
    by full equality and appends its indented line only when the lookup
    succeeds. Returns the appended lines and the final registry.
  */
  function ClaimLoop(snapshot: Registry, live: Registry, values: seq<string>): (r: (seq<string>, Registry))
    ensures |r.0| + |r.1| == |live|
    decreases |snapshot|
  {
    if |snapshot| == 0 then ([], live)
    else
      var e := snapshot[0];
      if e.name in values then
        match FirstIndex(live, e)
        case Some(i) =>
          var (lines, rest) := ClaimLoop(snapshot[1..], RemoveAt(live, i), values);
          ([Indent(e.line)] + lines, rest)
        case None => ClaimLoop(snapshot[1..], live, values)
      else ClaimLoop(snapshot[1..], live, values)
  }

  /** The pieces one rectangle appends (open line, indented children, claimed lines, close line) and the registry after it. */
  function RectanglePieces(r: Rectangle, reg: Registry): (p: (seq<string>, Registry))
    ensures |p.0| >= 2 && p.0[0] == OpenLine(r.name) && p.0[|p.0| - 1] == CloseLine
    ensures |p.1| <= |reg|
    decreases r
  {
    var (inner, afterChildren) :=
      match r.rectangles
      case Rectangles(kids) =>
        var (ps, rest) := ForestPieces(kids, reg);
        var text := AppendEach("", ps);
        (if text != "" then [Indent(text)] else [], rest)
      case NoRectangles => ([], reg);
    var (claimed, afterOwn) :=
      match r.values
      case Some(vs) => ClaimLoop(afterChildren, afterChildren, vs)
      case None => ([], afterChildren);
    ([OpenLine(r.name)] + inner + claimed + [CloseLine], afterOwn)
  }

  /** The pieces a forest of sibling rectangles appends, in sibling order, threading the registry. */
  function ForestPieces(rects: seq<Rectangle>, reg: Registry): (p: (seq<string>, Registry))
    ensures |p.0| == 0 <==> |rects| == 0
    ensures |p.1| <= |reg|
    decreases rects
  {
    if |rects| == 0 then ([], reg)
    else
      var (first, mid) := RectanglePieces(rects[0], reg);
      var (others, rest) := ForestPieces(rects[1..], mid);
      (first + others, rest)
  }

  /** `getRectanglesLine(namesAndLines:)`: the rendered block and the registry it leaves behind. */
  function Resolve(rects: seq<Rectangle>, reg: Registry): (r: (string, Registry))
    ensures r.0 == "" <==> rects == []
    ensures |r.1| <= |reg|
  {
    var (pieces, rest) := ForestPieces(rects, reg);
    AppendEachExtends("", pieces);
    (AppendEach("", pieces), rest)
  }
}
