/**
  String helpers shared by the rectangle resolver and the script driver:
  appending a line, joining with a newline separator, re-indenting a block by
  one level, and the view of a string as its newline-separated lines.
*/
module Text {
  import opened Options

  /** The indentation unit of one nesting level. */
  const Spacing: string := "  "

  /** Number of newline characters in `s`. */
  function NewlineCount(s: string): nat {
    multiset(s)['\n']
  }

  /**
    `String.appendAsNewLine`. Its definition is not part of this model; it is
    assumed to append a newline followed by the line, whatever `s` holds
    (also when `s` is empty). Everything that depends on this choice goes
    through this one function.
  */
  function AppendAsNewLine(s: string, line: string): string {
    s + "\n" + line
  }

  /** A run of `appendAsNewLine` calls, one per piece, in order. */
  function AppendEach(s: string, pieces: seq<string>): string
    decreases |pieces|
  {
    if |pieces| == 0 then s else AppendEach(AppendAsNewLine(s, pieces[0]), pieces[1..])
  }

  /** Appending two runs of pieces one after the other is appending their concatenation. */
  lemma {:induction false} AppendEachConcat(s: string, a: seq<string>, b: seq<string>)
    ensures AppendEach(s, a + b) == AppendEach(AppendEach(s, a), b)
    decreases |a|
  {
    if |a| == 0 {
      assert a + b == b;
    } else {
      assert (a + b)[1..] == a[1..] + b;
      AppendEachConcat(AppendAsNewLine(s, a[0]), a[1..], b);
    }
  }

  /** Appending one more piece is one more appendAsNewLine. */
  lemma AppendEachSnoc(s: string, pieces: seq<string>, x: string)
    ensures AppendEach(s, pieces + [x]) == AppendAsNewLine(AppendEach(s, pieces), x)
  {
    AppendEachConcat(s, pieces, [x]);
    assert [x][1..] == [];
  }

  /** Under the assumed `appendAsNewLine`, a run of appends leaves `s` as a prefix and adds one newline per piece. */
  lemma {:induction false} AppendEachExtends(s: string, pieces: seq<string>)
    ensures |AppendEach(s, pieces)| >= |s| + |pieces|
    ensures AppendEach(s, pieces)[..|s|] == s
    ensures AppendEach(s, pieces) == s <==> |pieces| == 0
    decreases |pieces|
  {
    if |pieces| > 0 {
      var t := AppendAsNewLine(s, pieces[0]);
      AppendEachExtends(t, pieces[1..]);
      assert t[..|s|] == s;
      assert AppendEach(s, pieces)[..|s|] == AppendEach(s, pieces)[..|t|][..|s|];
    }
  }

  /** A run of appends keeps the first character of a non-empty start. */
  lemma AppendEachFirst(s: string, pieces: seq<string>)
    requires |s| > 0
    ensures |AppendEach(s, pieces)| > 0 && AppendEach(s, pieces)[0] == s[0]
  {
    AppendEachExtends(s, pieces);
    assert AppendEach(s, pieces)[..|s|][0] == AppendEach(s, pieces)[0];
  }

  /** `joined(separator: "\n")` on an array of strings. */
  function JoinedByNewline(ss: seq<string>): string
    decreases |ss|
  {
    if |ss| == 0 then ""
    else if |ss| == 1 then ss[0]
    else ss[0] + "\n" + JoinedByNewline(ss[1..])
  }


  /** `replacingOccurrences(of: "\n", with: "\n" + spacing)`: every newline gains one indentation unit after it. */
  function ReplaceNewlines(s: string): (r: string)
    ensures |r| == |s| + |Spacing| * NewlineCount(s)
    ensures NewlineCount(r) == NewlineCount(s)
    decreases |s|
  {
    if |s| == 0 then ""
    else
      assert s == [s[0]] + s[1..];
      (if s[0] == '\n' then "\n" + Spacing else [s[0]]) + ReplaceNewlines(s[1..])
  }

  /** Inverse of ReplaceNewlines: drops one indentation unit after each newline that has one. */
  function UnreplaceNewlines(s: string): string
    decreases |s|
  {
    if |s| == 0 then ""
    else if s[0] == '\n' && |s| >= 3 && s[1..3] == Spacing then "\n" + UnreplaceNewlines(s[3..])
    else [s[0]] + UnreplaceNewlines(s[1..])
  }

  /** Proof helpers: the head and tail of short concatenations. */
  lemma ConsSplit(c: char, t: string)
    ensures ([c] + t)[0] == c && ([c] + t)[1..] == t
  {
  }

  lemma NewlineSpacingSplit(x: string)
    ensures var r := ['\n'] + (Spacing + x);
      |r| >= 3 && r[0] == '\n' && r[1..3] == Spacing && r[3..] == x
  {
  }

  lemma RegroupSpacing(x: string)
    ensures (['\n'] + Spacing) + x == ['\n'] + (Spacing + x)
  {
  }

  lemma {:induction false} UnreplaceReplace(s: string)
    ensures UnreplaceNewlines(ReplaceNewlines(s)) == s
    decreases |s|
  {
    if |s| > 0 {
      UnreplaceReplace(s[1..]);
      ConsSplit(s[0], s[1..]);
      ReplaceNewlinesCons(s[0], s[1..]);
      if s[0] == '\n' {
        NewlineSpacingSplit(ReplaceNewlines(s[1..]));
      } else {
        ConsSplit(s[0], ReplaceNewlines(s[1..]));
      }
      assert s == [s[0]] + s[1..];
    }
  }

  /**
    One level of indentation, as the resolver applies it to a child block and
    to each claimed line: the unit in front and after every newline.
  */
  function Indent(s: string): (r: string)
    ensures NewlineCount(r) == NewlineCount(s)
    ensures |r| == |s| + |Spacing| * (NewlineCount(s) + 1)
    ensures Unindent(r) == Some(s)
  {
    var r := Spacing + ReplaceNewlines(s);
    assert multiset(r) == multiset(Spacing) + multiset(ReplaceNewlines(s));
    assert r[..2] == Spacing && r[2..] == ReplaceNewlines(s);
    UnreplaceReplace(s);
    r
  }

  /** Removes one level of indentation; None when the text does not start with the unit. */
  function Unindent(s: string): Option<string> {
    if |s| >= 2 && s[..2] == Spacing then Some(UnreplaceNewlines(s[2..])) else None
  }

  /** The lines of `[c] + x`, given the lines `ls` of `x`. */
  function ConsLine(c: char, ls: seq<string>): (r: seq<string>)
    requires |ls| >= 1
    ensures |r| >= 1
  {
    if c == '\n' then [""] + ls else [[c] + ls[0]] + ls[1..]
  }

  /** The newline-separated lines of `s` (there is always at least one). */
  function Lines(s: string): (ls: seq<string>)
    ensures |ls| >= 1
    decreases |s|
  {
    if |s| == 0 then [""] else ConsLine(s[0], Lines(s[1..]))
  }

  /** Every line of `ls` with `p` in front. */
  function PrefixEach(p: string, ls: seq<string>): (r: seq<string>)
    ensures |r| == |ls|
    ensures forall i :: 0 <= i < |ls| ==> r[i] == p + ls[i]
  {
    seq(|ls|, i requires 0 <= i < |ls| => p + ls[i])
  }

  /** The lines of every piece, one after the other. */
  function FlatLines(pieces: seq<string>): seq<string>
    decreases |pieces|
  {
    if |pieces| == 0 then [] else Lines(pieces[0]) + FlatLines(pieces[1..])
  }

  lemma LinesAfterNewline(x: string)
    ensures Lines("\n" + x) == [""] + Lines(x)
  {
    assert ("\n" + x)[1..] == x;
  }

  /** A text without newlines in front of `x` only extends the first line of `x`. */
  lemma {:induction false} LinesPrefix(p: string, x: string)
    requires '\n' !in p
    ensures Lines(p + x) == [p + Lines(x)[0]] + Lines(x)[1..]
    decreases |p|
  {
    if |p| > 0 {
      assert (p + x)[0] == p[0];
      assert (p + x)[1..] == p[1..] + x;
      LinesPrefix(p[1..], x);
      assert [p[0]] + (p[1..] + Lines(x)[0]) == p + Lines(x)[0];
    } else {
      assert p == [];
      assert p + x == x && p + Lines(x)[0] == Lines(x)[0];
      assert Lines(x) == [Lines(x)[0]] + Lines(x)[1..];
    }
  }

  /** How one leading character changes the lines of a text. */
  lemma LinesCons(c: char, x: string)
    ensures Lines([c] + x) == ConsLine(c, Lines(x))
  {
    assert ([c] + x)[0] == c && ([c] + x)[1..] == x;
  }

  /** Extra lines after the first one do not change how a leading character is absorbed. */
  lemma ConsLineAppend(c: char, a: seq<string>, b: seq<string>)
    requires |a| >= 1
    ensures ConsLine(c, a + b) == ConsLine(c, a) + b
  {
    if c != '\n' {
      assert (a + b)[0] == a[0];
      assert (a + b)[1..] == a[1..] + b;
    }
  }

  /** The inductive step of LinesJoin: one more leading character on the left text. */
  lemma LinesJoinStep(c: char, t: string, b: string)
    requires Lines(t + "\n" + b) == Lines(t) + Lines(b)
    ensures Lines([c] + t + "\n" + b) == Lines([c] + t) + Lines(b)
  {
    assert [c] + t + "\n" + b == [c] + (t + "\n" + b);
    LinesCons(c, t);
    LinesCons(c, t + "\n" + b);
    ConsLineAppend(c, Lines(t), Lines(b));
  }

  /** A newline between two texts separates their lines and merges none. */
  lemma {:induction false} LinesJoin(a: string, b: string)
    ensures Lines(a + "\n" + b) == Lines(a) + Lines(b)
    decreases |a|
  {
    if |a| == 0 {
      assert a + "\n" + b == "\n" + b;
      LinesAfterNewline(b);
    } else {
      assert a == [a[0]] + a[1..];
      LinesJoin(a[1..], b);
      LinesJoinStep(a[0], a[1..], b);
    }
  }

  /** Each appended piece contributes its own lines, after the lines already there. */
  lemma {:induction false} LinesAppendEach(s: string, pieces: seq<string>)
    ensures Lines(AppendEach(s, pieces)) == Lines(s) + FlatLines(pieces)
    decreases |pieces|
  {
    if |pieces| > 0 {
      LinesJoin(s, pieces[0]);
      LinesAppendEach(AppendAsNewLine(s, pieces[0]), pieces[1..]);
      assert Lines(AppendAsNewLine(s, pieces[0])) + FlatLines(pieces[1..])
          == Lines(s) + (Lines(pieces[0]) + FlatLines(pieces[1..]));
    }
  }

  /** Pieces appended to a lone newline: two empty lines, then the lines of every piece. */
  lemma NewlineOpenedLines(pieces: seq<string>)
    ensures Lines(AppendEach("\n", pieces)) == ["", ""] + FlatLines(pieces)
  {
    LinesAppendEach("\n", pieces);
    LinesAfterNewline("");
  }

  /** A text without newlines is a single line. */
  lemma LinesSingle(p: string)
    requires '\n' !in p
    ensures Lines(p) == [p]
  {
    LinesPrefix(p, "");
    assert p + "" == p;
  }

  /** The lines of two runs of pieces, one after the other. */
  lemma {:induction false} FlatLinesConcat(a: seq<string>, b: seq<string>)
    ensures FlatLines(a + b) == FlatLines(a) + FlatLines(b)
    decreases |a|
  {
    if |a| == 0 {
      assert a + b == b;
    } else {
      assert (a + b)[0] == a[0] && (a + b)[1..] == a[1..] + b;
      FlatLinesConcat(a[1..], b);
    }
  }

  /** Four parts joined by newlines, the outer two single lines. */
  lemma FourPartLines(a: string, b: string, c: string, d: string)
    requires '\n' !in a && '\n' !in d
    ensures Lines(a + "\n" + b + "\n" + c + "\n" + d) == [a] + Lines(b) + Lines(c) + [d]
  {
    LinesJoin(a + "\n" + b + "\n" + c, d);
    LinesJoin(a + "\n" + b, c);
    LinesJoin(a, b);
    LinesSingle(a);
    LinesSingle(d);
  }

  /**
    Under the assumed `appendAsNewLine`, appending keeps the text so far in
    front and adds exactly the appended line's own lines after its lines.
  */
  lemma AppendAsNewLineAddsLines(s: string, line: string)
    ensures s <= AppendAsNewLine(s, line)
    ensures Lines(AppendAsNewLine(s, line)) == Lines(s) + Lines(line)
  {
    LinesJoin(s, line);
  }

  /** A run of appends that starts from a single line and ends with a single line. */
  lemma FramedLines(first: string, middle: seq<string>, last: string)
    requires '\n' !in first && '\n' !in last
    ensures Lines(AppendEach(first, middle + [last])) == [first] + FlatLines(middle) + [last]
  {
    LinesAppendEach(first, middle + [last]);
    FlatLinesConcat(middle, [last]);
    LinesSingle(first);
    LinesSingle(last);
    assert [last][0] == last && [last][1..] == [];
    assert FlatLines([last]) == Lines(last) + FlatLines([]);
  }

  /** A framed run whose last middle piece is singled out: its lines come just before the closing line. */
  lemma FramedLinesLast(first: string, head: seq<string>, x: string, last: string)
    requires '\n' !in first && '\n' !in last
    ensures Lines(AppendEach(first, head + [x, last])) == [first] + FlatLines(head) + Lines(x) + [last]
  {
    SplitLastTwo(head, x, last);
    FramedLines(first, head + [x], last);
    FlatLinesConcat(head, [x]);
    FlatLinesSingle(x);
    Regroup([first], FlatLines(head), Lines(x), [last]);
  }

  lemma SplitLastTwo(head: seq<string>, x: string, last: string)
    ensures head + [x, last] == (head + [x]) + [last]
  {
  }

  lemma FlatLinesSingle(x: string)
    ensures FlatLines([x]) == Lines(x)
  {
    assert [x][0] == x && [x][1..] == [];
    assert FlatLines([x]) == Lines(x) + FlatLines([]);
  }

  lemma Regroup(a: seq<string>, b: seq<string>, c: seq<string>, d: seq<string>)
    ensures a + (b + c) + d == a + b + c + d
  {
  }

  /** Joining with a newline separator keeps every element's lines; an empty array gives one empty line. */
  lemma {:induction false} LinesJoinedByNewline(ss: seq<string>)
    ensures Lines(JoinedByNewline(ss)) == if |ss| == 0 then [""] else FlatLines(ss)
    decreases |ss|
  {
    if |ss| == 1 {
      assert FlatLines(ss) == Lines(ss[0]) + FlatLines(ss[1..]);
    } else if |ss| > 1 {
      LinesJoin(ss[0], JoinedByNewline(ss[1..]));
      LinesJoinedByNewline(ss[1..]);
    }
  }

  lemma PrefixEachCons(p: string, ls: seq<string>)
    requires |ls| >= 1
    ensures PrefixEach(p, ls) == [p + ls[0]] + PrefixEach(p, ls[1..])
  {
    var r := [p + ls[0]] + PrefixEach(p, ls[1..]);
    assert forall i :: 1 <= i < |ls| ==> r[i] == PrefixEach(p, ls[1..])[i - 1];
  }

  /** The first line unchanged, every later line behind one indentation unit. */
  function IndentTail(ls: seq<string>): (r: seq<string>)
    requires |ls| >= 1
    ensures |r| == |ls|
  {
    [ls[0]] + PrefixEach(Spacing, ls[1..])
  }

  /** How one leading character is rewritten by ReplaceNewlines. */
  lemma ReplaceNewlinesCons(c: char, t: string)
    ensures ReplaceNewlines([c] + t)
         == if c == '\n' then ['\n'] + (Spacing + ReplaceNewlines(t)) else [c] + ReplaceNewlines(t)
  {
    ConsSplit(c, t);
    if c == '\n' {
      assert "\n" == ['\n'];
      RegroupSpacing(ReplaceNewlines(t));
    }
  }


  /** ReplaceNewlines on a non-empty string, split at its first character. */
  lemma ReplaceNewlinesHead(s: string)
    requires |s| > 0
    ensures ReplaceNewlines(s)
         == if s[0] == '\n' then ['\n'] + (Spacing + ReplaceNewlines(s[1..])) else [s[0]] + ReplaceNewlines(s[1..])
  {
    if s[0] == '\n' {
      assert "\n" == ['\n'];
      RegroupSpacing(ReplaceNewlines(s[1..]));
    }
  }

  lemma ReplaceStepNewline(s: string)
    requires |s| > 0 && s[0] == '\n'
    requires Lines(ReplaceNewlines(s[1..])) == IndentTail(Lines(s[1..]))
    ensures Lines(ReplaceNewlines(s)) == IndentTail(Lines(s))
  {
    var r1 := ReplaceNewlines(s[1..]);
    var lt := Lines(s[1..]);
    ReplaceNewlinesHead(s);
    LinesCons('\n', Spacing + r1);
    LinesPrefix(Spacing, r1);
    PrefixEachCons(Spacing, lt);
    IndentTailCons("", lt);
  }

  /** The two halves of an indented line list. */
  lemma IndentTailParts(ls: seq<string>)
    requires |ls| >= 1
    ensures IndentTail(ls)[0] == ls[0] && IndentTail(ls)[1..] == PrefixEach(Spacing, ls[1..])
  {
  }

  lemma IndentTailCons(x: string, rest: seq<string>)
    ensures IndentTail([x] + rest) == [x] + PrefixEach(Spacing, rest)
  {
    assert ([x] + rest)[0] == x && ([x] + rest)[1..] == rest;
  }

  lemma ReplaceStepOther(s: string)
    requires |s| > 0 && s[0] != '\n'
    requires Lines(ReplaceNewlines(s[1..])) == IndentTail(Lines(s[1..]))
    ensures Lines(ReplaceNewlines(s)) == IndentTail(Lines(s))
  {
    var c := s[0];
    var r1 := ReplaceNewlines(s[1..]);
    var lt := Lines(s[1..]);
    ReplaceNewlinesHead(s);
    LinesCons(c, r1);
    IndentTailParts(lt);
    IndentTailCons([c] + lt[0], lt[1..]);
    calc {
      Lines(ReplaceNewlines(s));
      ConsLine(c, Lines(r1));
      [[c] + lt[0]] + PrefixEach(Spacing, lt[1..]);
      IndentTail(ConsLine(c, lt));
    }
  }

  lemma {:induction false} LinesReplaceNewlines(s: string)
    ensures Lines(ReplaceNewlines(s)) == IndentTail(Lines(s))
    decreases |s|
  {
    if |s| == 0 {
      assert ReplaceNewlines(s) == "";
    } else {
      LinesReplaceNewlines(s[1..]);
      if s[0] == '\n' {
        ReplaceStepNewline(s);
      } else {
        ReplaceStepOther(s);
      }
    }
  }

  /** One level of indentation puts the unit in front of every line, embedded newlines included. */
  lemma LinesIndent(s: string)
    ensures Lines(Indent(s)) == PrefixEach(Spacing, Lines(s))
  {
    LinesReplaceNewlines(s);
    LinesPrefix(Spacing, ReplaceNewlines(s));
    IndentTailParts(Lines(s));
    PrefixEachCons(Spacing, Lines(s));
  }
}
