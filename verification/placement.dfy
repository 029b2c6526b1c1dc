/**
  What getRectanglesLine places where, stated without the snapshot loop:
  a rectangle claims, after its children, exactly the stable filter of the
  registry by its own names. This module proves that the resolver of module
  Rectangles agrees with that plan, and derives from it the promises of the
  rectangle grouping: one block per rectangle, no entry lost or emitted twice,
  the registry only ever shrinks in order, and the first rectangle processed
  wins every name it lists.
*/
module Placement {
  import opened Options
  import opened Text
  import opened Rectangles

  // ---------------------------------------------------------------------
  // Stable filters of the registry by name
  // ---------------------------------------------------------------------

  /** The entries whose name is in `names`, in registry order. */
  function Claimed(reg: Registry, names: set<string>): Registry
    decreases |reg|
  {
    if |reg| == 0 then []
    else (if reg[0].name in names then [reg[0]] else []) + Claimed(reg[1..], names)
  }

  /** The entries whose name is not in `names`, in registry order. */
  function Unclaimed(reg: Registry, names: set<string>): Registry
    decreases |reg|
  {
    if |reg| == 0 then []
    else (if reg[0].name !in names then [reg[0]] else []) + Unclaimed(reg[1..], names)
  }

  /** What the filters keep: exactly the entries with a listed name, or exactly those without one. */
  lemma {:induction false} FilterMembers(reg: Registry, names: set<string>)
    ensures forall e :: e in Claimed(reg, names) <==> e in reg && e.name in names
    ensures forall e :: e in Unclaimed(reg, names) <==> e in reg && e.name !in names
    decreases |reg|
  {
    if |reg| > 0 {
      FilterMembers(reg[1..], names);
      assert reg == [reg[0]] + reg[1..];
    }
  }

  /** `xs` is `ys` with some elements left out, the rest kept in order. */
  predicate IsSubsequence(xs: Registry, ys: Registry)
    decreases |ys|
  {
    if |xs| == 0 then true
    else if |ys| == 0 then false
    else if xs[0] == ys[0] then IsSubsequence(xs[1..], ys[1..])
    else IsSubsequence(xs, ys[1..])
  }

  lemma {:induction false} UnclaimedIsSubsequence(reg: Registry, names: set<string>)
    ensures IsSubsequence(Unclaimed(reg, names), reg)
    decreases |reg|
  {
    if |reg| > 0 {
      UnclaimedIsSubsequence(reg[1..], names);
      var u := Unclaimed(reg, names);
      if reg[0].name !in names {
        assert u[0] == reg[0] && u[1..] == Unclaimed(reg[1..], names);
      } else {
        assert u == Unclaimed(reg[1..], names);
        FilterMembers(reg[1..], names);
        if |u| > 0 {
          assert u[0] in u;
          assert u[0] != reg[0];
        }
      }
    }
  }

  /** Splitting the registry by a set of names loses and duplicates nothing. */
  lemma {:induction false} ClaimedUnclaimedPartition(reg: Registry, names: set<string>)
    ensures multiset(Claimed(reg, names)) + multiset(Unclaimed(reg, names)) == multiset(reg)
    decreases |reg|
  {
    if |reg| > 0 {
      var e, tail := reg[0], reg[1..];
      ClaimedUnclaimedPartition(tail, names);
      assert reg == [e] + tail;
      if e.name in names {
        assert Claimed(reg, names) == [e] + Claimed(tail, names);
        assert Unclaimed(reg, names) == Unclaimed(tail, names);
      } else {
        assert Claimed(reg, names) == Claimed(tail, names);
        assert Unclaimed(reg, names) == [e] + Unclaimed(tail, names);
      }
    }
  }

  /** Removing one set of names and then another removes their union. */
  lemma {:induction false} UnclaimedTwice(reg: Registry, a: set<string>, b: set<string>)
    ensures Unclaimed(Unclaimed(reg, a), b) == Unclaimed(reg, a + b)
    decreases |reg|
  {
    if |reg| > 0 {
      UnclaimedTwice(reg[1..], a, b);
      var u := Unclaimed(reg, a);
      if reg[0].name !in a {
        assert u[0] == reg[0] && u[1..] == Unclaimed(reg[1..], a);
      } else {
        assert u == Unclaimed(reg[1..], a);
      }
    }
  }

  lemma {:induction false} ClaimedNothing(reg: Registry)
    ensures Claimed(reg, {}) == [] && Unclaimed(reg, {}) == reg
    decreases |reg|
  {
    if |reg| > 0 {
      ClaimedNothing(reg[1..]);
      assert reg == [reg[0]] + reg[1..];
    }
  }

  // ---------------------------------------------------------------------
  // The own-level claim loop is a stable partition
  // ---------------------------------------------------------------------

  /** The indented lines of claimed entries, in order. */
  function MemberLines(es: Registry): (r: seq<string>)
    ensures |r| == |es|
    decreases |es|
  {
    if |es| == 0 then [] else [Indent(es[0].line)] + MemberLines(es[1..])
  }

  /**
    During the claim loop the live registry always starts with the entries
    the loop has passed over; the snapshot element just reached is the first
    live entry equal to it, so the `firstIndex` lookup always succeeds.
  */
  lemma {:induction false} FirstIndexFound(kept: Registry, rest: Registry)
    requires |rest| > 0
    requires rest[0] !in kept
    ensures FirstIndex(kept + rest, rest[0]) == Some(|kept|)
  {
    var live := kept + rest;
    assert live[|kept|] == rest[0];
    var r := FirstIndex(live, rest[0]);
    assert r.Some?;
    assert forall j :: 0 <= j < |kept| ==> live[j] == kept[j];
  }

  /** The claim loop's step on a snapshot entry it claims. */
  lemma {:induction false} ClaimLoopClaims(kept: Registry, rest: Registry, values: seq<string>)
    requires |rest| > 0 && rest[0].name in values
    requires forall e :: e in kept ==> e.name !in values
    ensures ClaimLoop(rest, kept + rest, values)
         == ([Indent(rest[0].line)] + ClaimLoop(rest[1..], kept + rest[1..], values).0,
             ClaimLoop(rest[1..], kept + rest[1..], values).1)
  {
    FirstIndexFound(kept, rest);
    assert RemoveAt(kept + rest, |kept|) == kept + rest[1..];
  }

  /** The claim loop's split of `rest` behind the entries `kept` it passed over. */
  predicate LoopSplits(kept: Registry, rest: Registry, values: seq<string>) {
    ClaimLoop(rest, kept + rest, values)
      == (MemberLines(Claimed(rest, NameSet(values))), kept + Unclaimed(rest, NameSet(values)))
  }

  lemma {:induction false} SplitStepClaim(kept: Registry, rest: Registry, values: seq<string>)
    requires |rest| > 0 && rest[0].name in values
    requires forall e :: e in kept ==> e.name !in values
    requires LoopSplits(kept, rest[1..], values)
    ensures LoopSplits(kept, rest, values)
  {
    var names := NameSet(values);
    var e := rest[0];
    ClaimLoopClaims(kept, rest, values);
    var c := Claimed(rest, names);
    assert c == [e] + Claimed(rest[1..], names);
    assert c[0] == e && c[1..] == Claimed(rest[1..], names);
    assert Unclaimed(rest, names) == Unclaimed(rest[1..], names);
  }

  /** The claim loop passes over a snapshot entry whose name is not listed. */
  lemma {:induction false} ClaimLoopSkips(e: Entry, tail: Registry, live: Registry, values: seq<string>)
    requires e.name !in values
    ensures ClaimLoop([e] + tail, live, values) == ClaimLoop(tail, live, values)
  {
    assert ([e] + tail)[0] == e && ([e] + tail)[1..] == tail;
  }

  /** Both filters on an entry whose name is not listed. */
  lemma {:induction false} FiltersSkip(e: Entry, tail: Registry, names: set<string>)
    requires e.name !in names
    ensures Claimed([e] + tail, names) == Claimed(tail, names)
    ensures Unclaimed([e] + tail, names) == [e] + Unclaimed(tail, names)
  {
    assert ([e] + tail)[0] == e && ([e] + tail)[1..] == tail;
  }

  /** Moving one entry across the seam of a concatenation. */
  lemma RegroupEntry(kept: Registry, e: Entry, tail: Registry)
    ensures kept + ([e] + tail) == (kept + [e]) + tail
  {
  }

  lemma {:induction false} SplitStepKeep(kept: Registry, e: Entry, tail: Registry, values: seq<string>)
    requires e.name !in values
    requires LoopSplits(kept + [e], tail, values)
    ensures LoopSplits(kept, [e] + tail, values)
  {
    var names := NameSet(values);
    var live := kept + ([e] + tail);
    RegroupEntry(kept, e, tail);
    ClaimLoopSkips(e, tail, live, values);
    FiltersSkip(e, tail, names);
    RegroupEntry(kept, e, Unclaimed(tail, names));
  }

  /** The loop invariant of the claim loop: entries already passed over stay, the rest is split by name. */
  lemma {:induction false} ClaimLoopSplits(kept: Registry, rest: Registry, values: seq<string>)
    requires forall e :: e in kept ==> e.name !in values
    ensures LoopSplits(kept, rest, values)
    decreases |rest|
  {
    if |rest| == 0 {
      assert kept + rest == kept;
      assert kept + Unclaimed(rest, NameSet(values)) == kept;
    } else if rest[0].name in values {
      ClaimLoopSplits(kept, rest[1..], values);
      SplitStepClaim(kept, rest, values);
    } else {
      ClaimLoopSplits(kept + [rest[0]], rest[1..], values);
      SplitStepKeep(kept, rest[0], rest[1..], values);
      assert rest == [rest[0]] + rest[1..];
    }
  }

  /**
    The snapshot loop of getRectanglesLine claims exactly the entries named
    in `values`, in registry order, and leaves the others in order.
  */
  lemma ClaimLoopIsStablePartition(reg: Registry, values: seq<string>)
    ensures ClaimLoop(reg, reg, values)
         == (MemberLines(Claimed(reg, NameSet(values))), Unclaimed(reg, NameSet(values)))
  {
    var none: Registry := [];
    ClaimLoopSplits(none, reg, values);
    assert none + reg == reg;
    assert none + Unclaimed(reg, NameSet(values)) == Unclaimed(reg, NameSet(values));
  }

  // ---------------------------------------------------------------------
  // The placement plan and its rendering
  // ---------------------------------------------------------------------

  /** One rendered rectangle: its name, its nested blocks and the entries it claimed itself. */
  datatype Block = Block(name: string, inner: seq<Block>, members: Registry)

  /** Where each entry goes: a rectangle's children claim first, then it takes the stable filter by its own names. */
  function PlanRectangle(r: Rectangle, reg: Registry): (Block, Registry)
    decreases r
  {
    var (inner, afterChildren) :=
      match r.rectangles
      case Rectangles(kids) => PlanForest(kids, reg)
      case NoRectangles => ([], reg);
    (Block(r.name, inner, Claimed(afterChildren, OwnNames(r))), Unclaimed(afterChildren, OwnNames(r)))
  }

  function PlanForest(rects: seq<Rectangle>, reg: Registry): (seq<Block>, Registry)
    decreases rects
  {
    if |rects| == 0 then ([], reg)
    else
      var (b, mid) := PlanRectangle(rects[0], reg);
      var (bs, rest) := PlanForest(rects[1..], mid);
      ([b] + bs, rest)
  }

  /** The pieces a block renders to: its open line first and its close line last. */
  function BlockPieces(b: Block): (ps: seq<string>)
    ensures |ps| >= 2 && ps[0] == OpenLine(b.name) && ps[|ps| - 1] == CloseLine
    decreases b
  {
    var text := AppendEach("", BlocksPieces(b.inner));
    [OpenLine(b.name)] + (if text != "" then [Indent(text)] else []) + MemberLines(b.members) + [CloseLine]
  }

  function BlocksPieces(bs: seq<Block>): seq<string>
    decreases bs
  {
    if |bs| == 0 then [] else BlockPieces(bs[0]) + BlocksPieces(bs[1..])
  }

  /** The claim loop of one rectangle, whether `values` is nil or not, is the plan's split. */
  lemma OwnClaimsArePlanned(r: Rectangle, reg: Registry)
    ensures (match r.values
             case Some(vs) => ClaimLoop(reg, reg, vs)
             case None => ([], reg))
         == (MemberLines(Claimed(reg, OwnNames(r))), Unclaimed(reg, OwnNames(r)))
  {
    match r.values
    case Some(vs) => ClaimLoopIsStablePartition(reg, vs);
    case None => ClaimedNothing(reg);
  }

  /** getRectanglesLine on one rectangle renders the plan's block and leaves the plan's registry. */
  lemma {:induction false} RectangleFollowsPlan(r: Rectangle, reg: Registry)
    ensures RectanglePieces(r, reg) == (BlockPieces(PlanRectangle(r, reg).0), PlanRectangle(r, reg).1)
    decreases r
  {
    match r.rectangles
    case Rectangles(kids) =>
      ForestFollowsPlan(kids, reg);
      OwnClaimsArePlanned(r, ForestPieces(kids, reg).1);
    case NoRectangles =>
      OwnClaimsArePlanned(r, reg);
      assert AppendEach("", BlocksPieces([])) == "";
  }

  /** getRectanglesLine on a forest renders the plan's blocks and leaves the plan's registry. */
  lemma {:induction false} ForestFollowsPlan(rects: seq<Rectangle>, reg: Registry)
    ensures ForestPieces(rects, reg) == (BlocksPieces(PlanForest(rects, reg).0), PlanForest(rects, reg).1)
    decreases rects
  {
    if |rects| > 0 {
      RectangleFollowsPlan(rects[0], reg);
      var mid := RectanglePieces(rects[0], reg).1;
      ForestFollowsPlan(rects[1..], mid);
      var (b, _) := PlanRectangle(rects[0], reg);
      var (bs, _) := PlanForest(rects[1..], mid);
      assert PlanForest(rects, reg).0 == [b] + bs;
      assert ([b] + bs)[0] == b && ([b] + bs)[1..] == bs;
    }
  }

  // ---------------------------------------------------------------------
  // One block per rectangle, at every depth
  // ---------------------------------------------------------------------

  /** The blocks have the rectangles' shape: one block per rectangle, same name, same nesting. */
  predicate MirrorsForest(bs: seq<Block>, rects: seq<Rectangle>)
    decreases rects
  {
    |bs| == |rects| && forall i :: 0 <= i < |rects| ==> MirrorsRectangle(bs[i], rects[i])
  }

  predicate MirrorsRectangle(b: Block, r: Rectangle)
    decreases r
  {
    && b.name == r.name
    && match r.rectangles
       case Rectangles(kids) => MirrorsForest(b.inner, kids)
       case NoRectangles => b.inner == []
  }

  /**
    Every rectangle of the forest, at any depth, gets exactly one block of its
    own name (which BlockPieces opens with its open line and ends with `}`),
    also when it has no children and claims nothing.
  */
  lemma {:induction false} PlanMirrorsForest(rects: seq<Rectangle>, reg: Registry)
    ensures MirrorsForest(PlanForest(rects, reg).0, rects)
    decreases rects
  {
    if |rects| > 0 {
      PlanMirrorsRectangle(rects[0], reg);
      var (b, mid) := PlanRectangle(rects[0], reg);
      PlanMirrorsForest(rects[1..], mid);
      var bs := PlanForest(rects[1..], mid).0;
      assert PlanForest(rects, reg).0 == [b] + bs;
      forall i | 1 <= i < |rects|
        ensures MirrorsRectangle(([b] + bs)[i], rects[i])
      {
        assert ([b] + bs)[i] == bs[i - 1] && rects[i] == rects[1..][i - 1];
      }
    }
  }

  lemma {:induction false} PlanMirrorsRectangle(r: Rectangle, reg: Registry)
    ensures MirrorsRectangle(PlanRectangle(r, reg).0, r)
    decreases r
  {
    match r.rectangles
    case Rectangles(kids) => PlanMirrorsForest(kids, reg);
    case NoRectangles =>
  }

  // ---------------------------------------------------------------------
  // Claim order: the first rectangle processed wins
  // ---------------------------------------------------------------------

  /** The name sets the walk claims with, in processing order: children before their parent, siblings left to right. */
  function ClaimOrder(rects: seq<Rectangle>): seq<set<string>>
    decreases rects
  {
    if |rects| == 0 then [] else RectangleClaimOrder(rects[0]) + ClaimOrder(rects[1..])
  }

  function RectangleClaimOrder(r: Rectangle): seq<set<string>>
    decreases r
  {
    (match r.rectangles
     case Rectangles(kids) => ClaimOrder(kids)
     case NoRectangles => []) + [OwnNames(r)]
  }

  /** The entries each block claimed itself, in the same processing order. */
  function ClaimsOf(bs: seq<Block>): seq<Registry>
    decreases bs
  {
    if |bs| == 0 then [] else BlockClaims(bs[0]) + ClaimsOf(bs[1..])
  }

  function BlockClaims(b: Block): seq<Registry>
    decreases b
  {
    ClaimsOf(b.inner) + [b.members]
  }

  /** All the names of a sequence of name sets. */
  function Union(order: seq<set<string>>): set<string>
    decreases |order|
  {
    if |order| == 0 then {} else order[0] + Union(order[1..])
  }

  /** Every name listed by some rectangle of the forest, at any depth. */
  function AllNames(rects: seq<Rectangle>): set<string> {
    Union(ClaimOrder(rects))
  }

  /** Claiming with one name set after another, each from what the previous ones left. */
  function Sweep(order: seq<set<string>>, reg: Registry): (seq<Registry>, Registry)
    decreases |order|
  {
    if |order| == 0 then ([], reg)
    else
      var (claims, rest) := Sweep(order[1..], Unclaimed(reg, order[0]));
      ([Claimed(reg, order[0])] + claims, rest)
  }

  lemma {:induction false} SweepConcat(a: seq<set<string>>, b: seq<set<string>>, reg: Registry)
    ensures Sweep(a + b, reg)
         == (Sweep(a, reg).0 + Sweep(b, Sweep(a, reg).1).0, Sweep(b, Sweep(a, reg).1).1)
    decreases |a|
  {
    if |a| == 0 {
      assert a + b == b;
      var none: seq<Registry> := [];
      assert none + Sweep(b, reg).0 == Sweep(b, reg).0;
    } else {
      var after := Unclaimed(reg, a[0]);
      assert (a + b)[0] == a[0] && (a + b)[1..] == a[1..] + b;
      SweepConcat(a[1..], b, after);
      var (xs, mid) := Sweep(a[1..], after);
      var (ys, rest) := Sweep(b, mid);
      assert Sweep(a, reg) == ([Claimed(reg, a[0])] + xs, mid);
      assert Sweep(a + b, reg) == ([Claimed(reg, a[0])] + (xs + ys), rest);
      assert [Claimed(reg, a[0])] + (xs + ys) == ([Claimed(reg, a[0])] + xs) + ys;
    }
  }

  /** The plan claims exactly what sweeping the claim order claims, and leaves the same registry. */
  lemma {:induction false} PlanForestIsSweep(rects: seq<Rectangle>, reg: Registry)
    ensures ClaimsOf(PlanForest(rects, reg).0) == Sweep(ClaimOrder(rects), reg).0
    ensures PlanForest(rects, reg).1 == Sweep(ClaimOrder(rects), reg).1
    decreases rects
  {
    if |rects| > 0 {
      var (b, mid) := PlanRectangle(rects[0], reg);
      var (bs, rest) := PlanForest(rects[1..], mid);
      PlanRectangleIsSweep(rects[0], reg);
      PlanForestIsSweep(rects[1..], mid);
      SweepConcat(RectangleClaimOrder(rects[0]), ClaimOrder(rects[1..]), reg);
      assert PlanForest(rects, reg).0 == [b] + bs;
      assert ([b] + bs)[0] == b && ([b] + bs)[1..] == bs;
    }
  }

  lemma {:induction false} PlanRectangleIsSweep(r: Rectangle, reg: Registry)
    ensures BlockClaims(PlanRectangle(r, reg).0) == Sweep(RectangleClaimOrder(r), reg).0
    ensures PlanRectangle(r, reg).1 == Sweep(RectangleClaimOrder(r), reg).1
    decreases r
  {
    var own := OwnNames(r);
    match r.rectangles
    case Rectangles(kids) =>
      PlanForestIsSweep(kids, reg);
      SweepConcat(ClaimOrder(kids), [own], reg);
      var mid := PlanForest(kids, reg).1;
      assert [own][1..] == [];
      assert [Claimed(mid, own)] + [] == [Claimed(mid, own)];
      assert Sweep([own], mid) == ([Claimed(mid, own)], Unclaimed(mid, own));
    case NoRectangles =>
      var none: seq<set<string>> := [];
      assert RectangleClaimOrder(r) == [own];
      assert [own][1..] == [];
      assert [Claimed(reg, own)] + [] == [Claimed(reg, own)];
      assert Sweep([own], reg) == ([Claimed(reg, own)], Unclaimed(reg, own));
      assert ClaimsOf([]) == [];
  }

  lemma UnionPrefix(order: seq<set<string>>, k: nat)
    requires k < |order|
    ensures Union(order[..k + 1]) == order[0] + Union(order[1..][..k])
  {
    assert order[..k + 1][0] == order[0];
    assert order[..k + 1][1..] == order[1..][..k];
  }

  /** The k-th claim of a sweep, given the claims of the sweep that starts one set later. */
  lemma SweepClaimAt(order: seq<set<string>>, reg: Registry, k: nat)
    requires 0 < k < |order|
    requires |Sweep(order[1..], Unclaimed(reg, order[0])).0| == |order| - 1
    requires Sweep(order[1..], Unclaimed(reg, order[0])).0[k - 1]
          == Claimed(Unclaimed(Unclaimed(reg, order[0]), Union(order[1..][..k - 1])), order[1..][k - 1])
    ensures Sweep(order, reg).0[k] == Claimed(Unclaimed(reg, Union(order[..k])), order[k])
  {
    UnionPrefix(order, k - 1);
    UnclaimedTwice(reg, order[0], Union(order[1..][..k - 1]));
  }

  /**
    Sweeping claims for each name set exactly the entries, in registry order,
    that carry one of its names and none of the names of an earlier set; what
    remains is every entry whose name no set lists.
  */
  lemma {:induction false} SweepFirstClaimant(order: seq<set<string>>, reg: Registry)
    ensures |Sweep(order, reg).0| == |order|
    ensures forall k :: 0 <= k < |order| ==>
      Sweep(order, reg).0[k] == Claimed(Unclaimed(reg, Union(order[..k])), order[k])
    ensures Sweep(order, reg).1 == Unclaimed(reg, Union(order))
    decreases |order|
  {
    if |order| > 0 {
      var after := Unclaimed(reg, order[0]);
      SweepFirstClaimant(order[1..], after);
      UnclaimedTwice(reg, order[0], Union(order[1..]));
      assert Sweep(order, reg).1 == Sweep(order[1..], after).1;
      assert Union(order) == order[0] + Union(order[1..]);
      forall k | 0 <= k < |order|
        ensures Sweep(order, reg).0[k] == Claimed(Unclaimed(reg, Union(order[..k])), order[k])
      {
        if k == 0 {
          assert Union(order[..0]) == {};
          ClaimedNothing(reg);
        } else {
          SweepClaimAt(order, reg, k);
        }
      }
    } else {
      ClaimedNothing(reg);
    }
  }

  /** All the entries of a sequence of claims, in order. */
  function Flatten(claims: seq<Registry>): Registry
    decreases |claims|
  {
    if |claims| == 0 then [] else claims[0] + Flatten(claims[1..])
  }

  /** A sweep places every entry of the registry exactly once: in one claim or in what remains. */
  lemma {:induction false} SweepConserves(order: seq<set<string>>, reg: Registry)
    ensures multiset(Flatten(Sweep(order, reg).0)) + multiset(Sweep(order, reg).1) == multiset(reg)
    decreases |order|
  {
    if |order| > 0 {
      var after := Unclaimed(reg, order[0]);
      SweepConserves(order[1..], after);
      ClaimedUnclaimedPartition(reg, order[0]);
      var (claims, rest) := Sweep(order[1..], after);
      assert Sweep(order, reg).0 == [Claimed(reg, order[0])] + claims;
      assert ([Claimed(reg, order[0])] + claims)[1..] == claims;
    }
  }

  // ---------------------------------------------------------------------
  // What getRectanglesLine promises
  // ---------------------------------------------------------------------

  /**
    The registry getRectanglesLine leaves behind is the input registry, in
    order, minus every entry whose name some rectangle lists at any depth.
  */
  lemma ResolveLeavesUnlisted(rects: seq<Rectangle>, reg: Registry)
    ensures Resolve(rects, reg).1 == Unclaimed(reg, AllNames(rects))
    ensures IsSubsequence(Resolve(rects, reg).1, reg)
    ensures forall e :: e in Resolve(rects, reg).1 <==> e in reg && e.name !in AllNames(rects)
  {
    ForestFollowsPlan(rects, reg);
    PlanForestIsSweep(rects, reg);
    SweepFirstClaimant(ClaimOrder(rects), reg);
    UnclaimedIsSubsequence(reg, AllNames(rects));
    FilterMembers(reg, AllNames(rects));
  }

  /**
    Every rectangle, in processing order (children first, then the rectangle
    itself; siblings left to right), holds exactly the entries, in registry
    order, that it names and that no rectangle processed before it names.
  */
  lemma ResolveFirstClaimantWins(rects: seq<Rectangle>, reg: Registry)
    ensures ForestPieces(rects, reg).0 == BlocksPieces(PlanForest(rects, reg).0)
    ensures |ClaimsOf(PlanForest(rects, reg).0)| == |ClaimOrder(rects)|
    ensures forall k :: 0 <= k < |ClaimOrder(rects)| ==>
      ClaimsOf(PlanForest(rects, reg).0)[k]
        == Claimed(Unclaimed(reg, Union(ClaimOrder(rects)[..k])), ClaimOrder(rects)[k])
  {
    ForestFollowsPlan(rects, reg);
    PlanForestIsSweep(rects, reg);
    SweepFirstClaimant(ClaimOrder(rects), reg);
  }

  /**
    No entry is lost or emitted twice: the entries the rectangles hold, plus
    the registry left behind, are the input registry as a multiset.
  */
  lemma ResolveConserves(rects: seq<Rectangle>, reg: Registry)
    ensures ForestPieces(rects, reg).0 == BlocksPieces(PlanForest(rects, reg).0)
    ensures multiset(Flatten(ClaimsOf(PlanForest(rects, reg).0))) + multiset(Resolve(rects, reg).1)
         == multiset(reg)
  {
    ForestFollowsPlan(rects, reg);
    PlanForestIsSweep(rects, reg);
    SweepConserves(ClaimOrder(rects), reg);
  }

  lemma {:induction false} ForestPiecesNonEmpty(rects: seq<Rectangle>, reg: Registry)
    ensures |ForestPieces(rects, reg).0| == 0 <==> |rects| == 0
    ensures |rects| == 0 ==> ForestPieces(rects, reg).1 == reg
  {
    if |rects| > 0 {
      var (first, mid) := RectanglePieces(rects[0], reg);
      assert |first| >= 2;
    }
  }

  /**
    An empty forest renders nothing and leaves the registry as it was; a
    non-empty forest always renders some text.
  */
  lemma ResolveEmptyIff(rects: seq<Rectangle>, reg: Registry)
    ensures Resolve(rects, reg).0 == "" <==> |rects| == 0
    ensures |rects| == 0 ==> Resolve(rects, reg).1 == reg
  {
    ForestPiecesNonEmpty(rects, reg);
    AppendEachExtends("", ForestPieces(rects, reg).0);
  }

  /** A nil `values` and an empty one, nil `rectangles` and an empty array, all behave alike. */
  lemma NilAndEmptyAgree(name: string, values: Option<seq<string>>, kids: Nested, reg: Registry)
    ensures RectanglePieces(Rectangle(name, None, kids), reg)
         == RectanglePieces(Rectangle(name, Some([]), kids), reg)
    ensures RectanglePieces(Rectangle(name, values, NoRectangles), reg)
         == RectanglePieces(Rectangle(name, values, Rectangles([])), reg)
  {
    var mid := match kids
      case Rectangles(rs) => ForestPieces(rs, reg).1
      case NoRectangles => reg;
    ClaimLoopIsStablePartition(mid, []);
    assert NameSet([]) == {};
    ClaimedNothing(mid);
    ClaimLoopIsStablePartition(reg, []);
    ClaimedNothing(reg);
    assert AppendEach("", []) == "";
  }

  /**
    A rectangle with no children that names no entry of the registry still
    renders as its open line and `}` and takes nothing.
  */
  /** The plan of a childless rectangle whose names claim nothing: an empty block, the registry untouched. */
  lemma EmptyRectanglePlan(r: Rectangle, reg: Registry)
    requires r.rectangles == NoRectangles
    requires forall e :: e in reg ==> e.name !in OwnNames(r)
    ensures PlanRectangle(r, reg) == (Block(r.name, [], []), reg)
  {
    UnclaimedAllKept(reg, OwnNames(r));
  }

  /** An empty block renders as its two framing lines. */
  lemma EmptyBlockPieces(name: string)
    ensures BlockPieces(Block(name, [], [])) == [OpenLine(name), CloseLine]
  {
    assert AppendEach("", BlocksPieces([])) == "";
    var none: Registry := [];
    assert MemberLines(none) == [];
    assert [OpenLine(name)] + [] + [] + [CloseLine] == [OpenLine(name), CloseLine];
  }

  /** The pieces of a childless rectangle whose names claim nothing: its two framing lines. */
  lemma EmptyRectanglePieces(r: Rectangle, reg: Registry)
    requires r.rectangles == NoRectangles
    requires forall e :: e in reg ==> e.name !in OwnNames(r)
    ensures RectanglePieces(r, reg) == ([OpenLine(r.name), CloseLine], reg)
  {
    RectangleFollowsPlan(r, reg);
    EmptyRectanglePlan(r, reg);
    EmptyBlockPieces(r.name);
  }

  /** A forest of one rectangle yields that rectangle's pieces. */
  lemma SingleForestPieces(r: Rectangle, reg: Registry)
    ensures ForestPieces([r], reg) == RectanglePieces(r, reg)
  {
    assert [r][1..] == [];
    assert RectanglePieces(r, reg).0 + [] == RectanglePieces(r, reg).0;
  }

  /** Appending two pieces to the empty text puts a newline before each. */
  lemma AppendTwoPieces(a: string, b: string)
    ensures AppendEach("", [a, b]) == "\n" + a + "\n" + b
  {
    assert [a, b][1..] == [b] && [b][1..] == [];
    assert AppendEach("", [a, b]) == AppendEach(AppendAsNewLine("", a), [b]);
    assert AppendEach(AppendAsNewLine("", a), [b]) == AppendAsNewLine(AppendAsNewLine("", a), b);
  }

  lemma EmptyRectangleRenders(r: Rectangle, reg: Registry)
    requires r.rectangles == NoRectangles
    requires forall e :: e in reg ==> e.name !in OwnNames(r)
    ensures Resolve([r], reg) == ("\n" + OpenLine(r.name) + "\n" + CloseLine, reg)
  {
    EmptyRectanglePieces(r, reg);
    SingleForestPieces(r, reg);
    AppendTwoPieces(OpenLine(r.name), CloseLine);
  }

  /** Unclaimed keeps the whole registry when no entry has a listed name. */
  lemma {:induction false} UnclaimedAllKept(reg: Registry, names: set<string>)
    requires forall e :: e in reg ==> e.name !in names
    ensures Unclaimed(reg, names) == reg && Claimed(reg, names) == []
    decreases |reg|
  {
    if |reg| > 0 {
      assert forall e :: e in reg[1..] ==> e in reg;
      UnclaimedAllKept(reg[1..], names);
      assert reg == [reg[0]] + reg[1..];
    }
  }
}
