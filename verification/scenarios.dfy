/**
  Two grouping situations, worked out for any declarations and rectangle
  names: siblings that list the same declaration, and a child that lists
  the same declaration as its parent.
*/
module Scenarios {
  import opened Options
  import opened Text
  import opened Rectangles
  import opened Placement

  /** One step of each filter. */
  lemma FiltersCons(e: Entry, rest: Registry, names: set<string>)
    ensures Claimed([e] + rest, names) == (if e.name in names then [e] else []) + Claimed(rest, names)
    ensures Unclaimed([e] + rest, names) == (if e.name in names then [] else [e]) + Unclaimed(rest, names)
  {
    assert ([e] + rest)[0] == e && ([e] + rest)[1..] == rest;
  }

  /** A single member renders as its indented line. */
  lemma OneMemberLine(e: Entry)
    ensures MemberLines([e]) == [Indent(e.line)]
  {
    var none: Registry := [];
    assert [e][0] == e && [e][1..] == none;
    assert MemberLines(none) == [];
  }

  /** A block with no inner blocks and one member renders as open line, indented member, close line. */
  lemma LeafBlockPieces(name: string, e: Entry)
    ensures BlockPieces(Block(name, [], [e])) == [OpenLine(name), Indent(e.line), CloseLine]
  {
    var noBlocks: seq<Block> := [];
    assert AppendEach("", BlocksPieces(noBlocks)) == "";
    OneMemberLine(e);
    EmptyMiddle(OpenLine(name), Indent(e.line), CloseLine);
  }

  // Proof helpers: facts about short sequence displays, stated once so the
  // scenario proofs below can name them instead of re-deriving them.

  lemma ThreeAndThree(x: string, y: string, z: string, u: string, v: string, w: string)
    ensures [x, y, z] + [u, v, w] == [x, y, z, u, v, w]
  {
  }

  lemma WithEmptyMiddle(x: string, y: string, z: string)
    ensures [x] + [y] + [] + [z] == [x, y, z]
  {
  }

  lemma EmptyMiddle(x: string, y: string, z: string)
    ensures [x] + [] + [y] + [z] == [x, y, z]
  {
  }

  /** The pieces of a single block, and of two sibling blocks, in order. */
  lemma OneBlockPieces(b: Block)
    ensures BlocksPieces([b]) == BlockPieces(b)
  {
    var noBlocks: seq<Block> := [];
    assert [b][0] == b && [b][1..] == noBlocks;
    assert BlocksPieces(noBlocks) == [];
    assert BlocksPieces([b]) == BlockPieces(b) + [];
  }

  lemma TwoBlocksPieces(b1: Block, b2: Block)
    ensures BlocksPieces([b1, b2]) == BlockPieces(b1) + BlockPieces(b2)
  {
    assert [b1, b2][0] == b1 && [b1, b2][1..] == [b2];
    OneBlockPieces(b2);
  }

  // ---------------------------------------------------------------------
  // Two siblings list the same name
  // ---------------------------------------------------------------------

  lemma SiblingsPlan(a: Entry, b: Entry, c: Entry, n1: string, n2: string)
    requires a.name != b.name && a.name != c.name && b.name != c.name
    ensures PlanForest([Rectangle(n1, Some([a.name]), NoRectangles), Rectangle(n2, Some([a.name, b.name]), NoRectangles)], [a, b, c])
         == ([Block(n1, [], [a]), Block(n2, [], [b])], [c])
  {
    var r1 := Rectangle(n1, Some([a.name]), NoRectangles);
    var r2 := Rectangle(n2, Some([a.name, b.name]), NoRectangles);
    var none: Registry := [];
    assert [a, b, c] == [a] + [b, c] && [b, c] == [b] + [c] && [c] == [c] + none;
    var s1, s2 := OwnNames(r1), OwnNames(r2);
    assert s1 == {a.name} && s2 == {a.name, b.name};
    assert PlanRectangle(r1, [a, b, c]) == (Block(n1, [], [a]), [b, c]) by {
      FiltersCons(c, none, s1);
      FiltersCons(b, [c], s1);
      FiltersCons(a, [b, c], s1);
      assert Claimed(none, s1) == none && Unclaimed(none, s1) == none;
      assert Claimed([b, c], s1) == none && Unclaimed([b, c], s1) == [b, c];
      assert Claimed([a, b, c], s1) == [a] + none == [a];
      assert Unclaimed([a, b, c], s1) == none + [b, c] == [b, c];
    }
    assert PlanRectangle(r2, [b, c]) == (Block(n2, [], [b]), [c]) by {
      FiltersCons(c, none, s2);
      FiltersCons(b, [c], s2);
      assert Claimed(none, s2) == none && Unclaimed(none, s2) == none;
      assert Claimed([c], s2) == none && Unclaimed([c], s2) == [c];
      assert Claimed([b, c], s2) == [b] + none == [b];
      assert Unclaimed([b, c], s2) == none + [c] == [c];
    }
    var noRects: seq<Rectangle> := [];
    var noBlocks: seq<Block> := [];
    assert [r1, r2][0] == r1 && [r1, r2][1..] == [r2] && [r2][0] == r2 && [r2][1..] == noRects;
    assert PlanForest(noRects, [c]) == (noBlocks, [c]);
    var b1, b2 := Block(n1, [], [a]), Block(n2, [], [b]);
    assert PlanForest([r2], [b, c]) == ([b2] + noBlocks, [c]);
    assert [b2] + noBlocks == [b2] && [b1] + [b2] == [b1, b2];
  }

  /**
    Declarations a, b, c with distinct names; sibling rectangles listing
    a, and a and b. The first sibling takes a, the second takes only b, and
    c stays at top level.
  */
  lemma SiblingsShareAName(a: Entry, b: Entry, c: Entry, n1: string, n2: string)
    requires a.name != b.name && a.name != c.name && b.name != c.name
    ensures Resolve([Rectangle(n1, Some([a.name]), NoRectangles), Rectangle(n2, Some([a.name, b.name]), NoRectangles)], [a, b, c])
         == (AppendEach("", [OpenLine(n1), Indent(a.line), CloseLine, OpenLine(n2), Indent(b.line), CloseLine]), [c])
  {
    var forest := [Rectangle(n1, Some([a.name]), NoRectangles), Rectangle(n2, Some([a.name, b.name]), NoRectangles)];
    var b1, b2 := Block(n1, [], [a]), Block(n2, [], [b]);
    SiblingsPlan(a, b, c, n1, n2);
    ForestFollowsPlan(forest, [a, b, c]);
    LeafBlockPieces(n1, a);
    LeafBlockPieces(n2, b);
    TwoBlocksPieces(b1, b2);
    ThreeAndThree(OpenLine(n1), Indent(a.line), CloseLine, OpenLine(n2), Indent(b.line), CloseLine);
  }

  // ---------------------------------------------------------------------
  // A child and its parent list the same name
  // ---------------------------------------------------------------------

  lemma NestedPlan(a: Entry, outer: string, inner: string)
    ensures PlanForest([Rectangle(outer, Some([a.name]), Rectangles([Rectangle(inner, Some([a.name]), NoRectangles)]))], [a])
         == ([Block(outer, [Block(inner, [], [a])], [])], [])
  {
    var ri := Rectangle(inner, Some([a.name]), NoRectangles);
    var ro := Rectangle(outer, Some([a.name]), Rectangles([ri]));
    var none: Registry := [];
    var noRects: seq<Rectangle> := [];
    var noBlocks: seq<Block> := [];
    var names := OwnNames(ri);
    assert names == {a.name} && OwnNames(ro) == names;
    assert [a] == [a] + none;
    FiltersCons(a, none, names);
    assert Claimed(none, names) == none && Unclaimed(none, names) == none;
    var bi := Block(inner, [], [a]);
    assert PlanRectangle(ri, [a]) == (bi, none);
    assert [ri][0] == ri && [ri][1..] == noRects && [ro][0] == ro && [ro][1..] == noRects;
    assert PlanForest([ri], [a]) == ([bi] + noBlocks, none);
    assert [bi] + noBlocks == [bi];
    var bo := Block(outer, [bi], none);
    assert PlanRectangle(ro, [a]) == (bo, none);
    assert PlanForest([ro], [a]) == ([bo] + noBlocks, none);
    assert [bo] + noBlocks == [bo];
  }

  /**
    An outer rectangle and its inner child both list a: the child is resolved
    first and takes a, and the outer rectangle's own claim then finds nothing,
    so the outer block holds only the indented inner block.
  */
  lemma ChildClaimsBeforeParent(a: Entry, outer: string, inner: string)
    ensures Resolve([Rectangle(outer, Some([a.name]), Rectangles([Rectangle(inner, Some([a.name]), NoRectangles)]))], [a])
         == (AppendEach("", [OpenLine(outer), Indent(AppendEach("", [OpenLine(inner), Indent(a.line), CloseLine])), CloseLine]), [])
  {
    var ri := Rectangle(inner, Some([a.name]), NoRectangles);
    var ro := Rectangle(outer, Some([a.name]), Rectangles([ri]));
    var none: Registry := [];
    var noLines: seq<string> := [];
    var bi := Block(inner, [], [a]);
    var bo := Block(outer, [bi], none);
    NestedPlan(a, outer, inner);
    ForestFollowsPlan([ro], [a]);
    LeafBlockPieces(inner, a);
    OneBlockPieces(bi);
    OneBlockPieces(bo);
    var innerText := AppendEach("", BlocksPieces([bi]));
    AppendEachExtends("", BlocksPieces([bi]));
    assert innerText != "";
    assert MemberLines(none) == [];
    assert BlockPieces(bo) == [OpenLine(outer)] + [Indent(innerText)] + noLines + [CloseLine];
    WithEmptyMiddle(OpenLine(outer), Indent(innerText), CloseLine);
  }
}
