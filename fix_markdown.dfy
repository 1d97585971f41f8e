/** The markdown clean-up script (`fix-markdown.js`, function `fixMarkdownContent`): the
    content is split into lines, seven passes rewrite the line list in place, and every
    change is recorded as a fix. The regular expressions of the script are written out
    as character predicates. */
module FixMarkdown {
  import opened Text

  // ---------------------------------------------------------------------------
  // Line shapes

  /** The length of the run of `c` at the start of `s`. */
  function LeadingRun(s: string, c: char): (n: nat)
    ensures n <= |s|
    ensures forall k :: 0 <= k < n ==> s[k] == c
    ensures n < |s| ==> s[n] != c
    decreases |s|
  {
    if |s| > 0 && s[0] == c then 1 + LeadingRun(s[1..], c) else 0
  }

  predicate IsDigit(c: char) {
    '0' <= c <= '9'
  }

  /** The length of the run of decimal digits at the start of `s`. */
  function LeadingDigits(s: string): (n: nat)
    ensures n <= |s|
    ensures forall k :: 0 <= k < n ==> IsDigit(s[k])
    ensures n < |s| ==> !IsDigit(s[n])
    decreases |s|
  {
    if |s| > 0 && IsDigit(s[0]) then 1 + LeadingDigits(s[1..]) else 0
  }

  /** `/^#{1,6}\s/`: one to six `#` and then white space. Backtracking cannot help a
      longer run, since the character after six `#` is another `#`. */
  predicate IsHeading(line: string) {
    var h := LeadingRun(line, '#');
    1 <= h <= 6 && h < |line| && IsSpace(line[h])
  }

  /** `/^[\s]*[-*+]\s/`: optional white space, a bullet, white space. */
  predicate IsBulletItem(line: string) {
    var t := TrimStart(line);
    |t| >= 2 && (t[0] == '-' || t[0] == '*' || t[0] == '+') && IsSpace(t[1])
  }

  /** `/^[\s]*\d+\.\s/`: optional white space, digits, a dot, white space. */
  predicate IsNumberedItem(line: string) {
    var t := TrimStart(line);
    var n := LeadingDigits(t);
    n >= 1 && n + 1 < |t| && t[n] == '.' && IsSpace(t[n + 1])
  }

  predicate IsListItem(line: string) {
    IsBulletItem(line) || IsNumberedItem(line)
  }

  /** `/^```/`. */
  predicate IsFence(line: string) {
    StartsWith(line, "```")
  }

  /** `/^```\s*$/`: a fence with nothing but white space after it. */
  predicate IsBareFence(line: string) {
    IsFence(line) && IsBlank(line[3..])
  }

  /** `/^#\s/`. */
  predicate IsTopHeading(line: string) {
    |line| >= 2 && line[0] == '#' && IsSpace(line[1])
  }

  lemma EmptyLineShape()
    ensures !IsHeading("") && !IsListItem("") && !IsFence("") && IsBlank("") && Trim("") == ""
  {
  }

  // ---------------------------------------------------------------------------
  // Fixes

  /** One entry of the `fixes` list, by the message it stands for. */
  datatype Fix =
    | BlankBeforeHeading(heading: string)
    | BlankAfterHeading(heading: string)
    | BlankBeforeList(item: string)
    | BlankAfterList(item: string)
    | BlankBeforeFence
    | BlankAfterFence
    | FenceLanguage(language: string)
    | DemotedHeading(heading: string)
    | TrailingWhitespace(lineNumber: nat)
    | FinalNewline

  /** The message the script pushes for a fix. */
  function Message(f: Fix): string {
    match f
    case BlankBeforeHeading(h) => "Added blank line before heading: \"" + h + "...\""
    case BlankAfterHeading(h) => "Added blank line after heading: \"" + h + "...\""
    case BlankBeforeList(t) => "Added blank line before list starting with: \"" + t + "...\""
    case BlankAfterList(t) => "Added blank line after list ending with: \"" + t + "...\""
    case BlankBeforeFence => "Added blank line before code fence"
    case BlankAfterFence => "Added blank line after code fence"
    case FenceLanguage(l) => "Added language '" + l + "' to code fence"
    case DemotedHeading(h) => "Converted duplicate top-level heading to second-level: \"" + h + "...\""
    case TrailingWhitespace(n) => "Removed trailing whitespace from line " + NatToString(n)
    case FinalNewline => "Added final newline to file"
  }

  // ---------------------------------------------------------------------------
  // Inserting blank lines (passes 1-3)

  /** `lines.splice(p, 0, x)`. */
  function Insert(lines: seq<string>, p: nat, x: string): (r: seq<string>)
    requires p <= |lines|
    ensures |r| == |lines| + 1 && r[p] == x
    ensures forall k :: 0 <= k < p ==> r[k] == lines[k]
    ensures forall k :: p < k < |r| ==> r[k] == lines[k - 1]
  {
    lines[..p] + [x] + lines[p..]
  }

  /** `b` is `a` with empty lines inserted: the lines of `a` appear in `b` in order and
      every other line of `b` is `''`. */
  ghost predicate BlanksInserted(a: seq<string>, b: seq<string>)
    decreases |b|
  {
    if |b| == 0 then |a| == 0
    else
      || (b[0] == "" && BlanksInserted(a, b[1..]))
      || (|a| > 0 && a[0] == b[0] && BlanksInserted(a[1..], b[1..]))
  }

  lemma {:induction false} BlanksInsertedRefl(a: seq<string>)
    ensures BlanksInserted(a, a)
    decreases |a|
  {
    if |a| > 0 {
      BlanksInsertedRefl(a[1..]);
    }
  }

  /** Inserting one more empty line keeps the relation. */
  lemma {:induction false} BlanksInsertedInsert(a: seq<string>, b: seq<string>, p: nat)
    requires BlanksInserted(a, b) && p <= |b|
    ensures BlanksInserted(a, Insert(b, p, ""))
    decreases p
  {
    var c := Insert(b, p, "");
    if p == 0 {
      assert c[1..] == b;
    } else {
      assert c[0] == b[0];
      assert c[1..] == Insert(b[1..], p - 1, "");
      if b[0] == "" && BlanksInserted(a, b[1..]) {
        BlanksInsertedInsert(a, b[1..], p - 1);
      } else {
        BlanksInsertedInsert(a[1..], b[1..], p - 1);
      }
    }
  }

  /** Inserting blank lines twice is inserting blank lines once. */
  lemma {:induction false} BlanksInsertedTrans(a: seq<string>, b: seq<string>, c: seq<string>)
    requires BlanksInserted(a, b) && BlanksInserted(b, c)
    ensures BlanksInserted(a, c)
    decreases |c|
  {
    if |c| > 0 {
      if c[0] == "" && BlanksInserted(b, c[1..]) {
        BlanksInsertedTrans(a, b, c[1..]);
      } else {
        assert |b| > 0 && b[0] == c[0] && BlanksInserted(b[1..], c[1..]);
        if b[0] == "" && BlanksInserted(a, b[1..]) {
          BlanksInsertedTrans(a, b[1..], c[1..]);
        } else {
          BlanksInsertedTrans(a[1..], b[1..], c[1..]);
        }
      }
    }
  }

  /** Only insertions lengthen the list, so a list of the same length is the original. */
  lemma {:induction false} BlanksInsertedLength(a: seq<string>, b: seq<string>)
    requires BlanksInserted(a, b)
    ensures |a| <= |b|
    ensures |a| == |b| ==> a == b
    decreases |b|
  {
    if |b| > 0 {
      if b[0] == "" && BlanksInserted(a, b[1..]) {
        BlanksInsertedLength(a, b[1..]);
      }
      if |a| > 0 && a[0] == b[0] && BlanksInserted(a[1..], b[1..]) {
        BlanksInsertedLength(a[1..], b[1..]);
        if |a| == |b| {
          assert a == [a[0]] + a[1..] && b == [b[0]] + b[1..];
        }
      }
    }
  }

  /** Ignoring empty lines, the two lists are the same. */
  function NonEmptyLines(s: seq<string>): seq<string>
    decreases |s|
  {
    if |s| == 0 then [] else (if s[0] == "" then [] else [s[0]]) + NonEmptyLines(s[1..])
  }

  lemma {:induction false} BlanksInsertedNonEmpty(a: seq<string>, b: seq<string>)
    requires BlanksInserted(a, b)
    ensures NonEmptyLines(a) == NonEmptyLines(b)
    decreases |b|
  {
    if |b| > 0 {
      if b[0] == "" && BlanksInserted(a, b[1..]) {
        BlanksInsertedNonEmpty(a, b[1..]);
      } else {
        BlanksInsertedNonEmpty(a[1..], b[1..]);
      }
    }
  }

  // ---------------------------------------------------------------------------
  // Spacing (what passes 1 and 2 establish)

  /** Line `k` is set off: the line before it, if any, passes `before`, and the line after
      it, if any, passes `after`. */
  predicate SetOff(lines: seq<string>, k: nat, before: string -> bool, after: string -> bool)
    requires k < |lines|
  {
    (k == 0 || before(lines[k - 1])) && (k == |lines| - 1 || after(lines[k + 1]))
  }

  /** Every line below `n` that passes `item` is set off. */
  predicate SetOffBelow(lines: seq<string>, n: nat, item: string -> bool, before: string -> bool, after: string -> bool) {
    forall k {:trigger SetOff(lines, k, before, after)} ::
      0 <= k < n && k < |lines| && item(lines[k]) ==> SetOff(lines, k, before, after)
  }

  /** A line MD022 accepts next to a heading: blank, or a `#` line. */
  predicate HeadingNeighbour(line: string) {
    IsBlank(line) || StartsWith(line, "#")
  }

  /** A line MD032 accepts before a list item: another item, or blank. */
  predicate ListBefore(line: string) {
    IsListItem(line) || IsBlank(line)
  }

  /** A line MD032 accepts after a list item: another item, blank, or a `#` line. */
  predicate ListAfter(line: string) {
    IsListItem(line) || IsBlank(line) || StartsWith(line, "#")
  }

  /** Every heading has a blank line, a `#` line or the edge of the text on both sides. */
  predicate HeadingsSpaced(lines: seq<string>) {
    SetOffBelow(lines, |lines|, IsHeading, HeadingNeighbour, HeadingNeighbour)
  }

  /** Every list item has an item, a blank line or the edge of the text before it, and an
      item, a blank line, a `#` line or the edge of the text after it. */
  predicate ListsSpaced(lines: seq<string>) {
    SetOffBelow(lines, |lines|, IsListItem, ListBefore, ListAfter)
  }

  /** An empty line inserted anywhere keeps every line set off that was set off: it is
      not an item itself, and a neighbour it becomes is acceptable. */
  lemma SetOffInsert(lines: seq<string>, n: nat, p: nat, item: string -> bool, before: string -> bool, after: string -> bool)
    requires p <= |lines| && n <= |lines|
    requires !item("") && before("") && after("")
    requires SetOffBelow(lines, n, item, before, after)
    ensures SetOffBelow(Insert(lines, p, ""), if p < n then n + 1 else n, item, before, after)
  {
    var r := Insert(lines, p, "");
    var m := if p < n then n + 1 else n;
    forall k | 0 <= k < m && k < |r| && item(r[k]) ensures SetOff(r, k, before, after) {
      if k < p {
        assert SetOff(lines, k, before, after);
      } else if k > p {
        assert SetOff(lines, k - 1, before, after);
      }
    }
  }

  /** An empty line inserted anywhere keeps every item of the text set off. */
  lemma SetOffInsertAll(lines: seq<string>, p: nat, item: string -> bool, before: string -> bool, after: string -> bool)
    requires p <= |lines| && !item("") && before("") && after("")
    requires SetOffBelow(lines, |lines|, item, before, after)
    ensures SetOffBelow(Insert(lines, p, ""), |lines| + 1, item, before, after)
  {
    SetOffInsert(lines, |lines|, p, item, before, after);
  }

  /** `lines.splice(at, 0, '')` with its fix recorded. */
  method InsertBlank(ghost input: seq<string>, lines0: seq<string>, fixes0: seq<Fix>, at: nat, fix: Fix)
    returns (lines: seq<string>, fixes: seq<Fix>)
    requires at <= |lines0| && BlanksInserted(input, lines0)
    ensures lines == Insert(lines0, at, "") && fixes == fixes0 + [fix]
    ensures BlanksInserted(input, lines)
  {
    BlanksInsertedInsert(input, lines0, at);
    lines := Insert(lines0, at, "");
    fixes := fixes0 + [fix];
  }

  /** Where a scan over the lines stands after a turn: the lines, the fixes so far and the
      index the scan goes on from (after the half of a turn, the index of the line it looks at). */
  datatype Turn = Turn(lines: seq<string>, fixes: seq<Fix>, next: nat)

  /** The first half of a turn at the line at `at`: an empty line before it when the line
      before fails `before`; `next` is where the line is afterwards. */
  function BlankBefore(lines: seq<string>, fixes: seq<Fix>, at: nat, before: string -> bool, fix: Fix): (t: Turn)
    requires at < |lines|
    ensures |t.lines| - |lines| == |t.fixes| - |fixes| && t.next < |t.lines| && t.lines[t.next] == lines[at]
    ensures t.fixes == fixes || t.fixes == fixes + [fix]
  {
    if at > 0 && !before(lines[at - 1]) then Turn(Insert(lines, at, ""), fixes + [fix], at + 1)
    else Turn(lines, fixes, at)
  }

  /** The second half of a turn at the line at `h`: an empty line after it when the line
      after fails `after`. */
  function BlankAfter(lines: seq<string>, fixes: seq<Fix>, h: nat, after: string -> bool, fix: Fix): (t: Turn)
    requires h < |lines|
    ensures |t.lines| - |lines| == |t.fixes| - |fixes| && t.next == h
    ensures |lines| <= |t.lines| && t.lines[..h + 1] == lines[..h + 1]
    ensures t.fixes == fixes || t.fixes == fixes + [fix]
  {
    if h < |lines| - 1 && !after(lines[h + 1]) then Turn(Insert(lines, h + 1, ""), fixes + [fix], h)
    else Turn(lines, fixes, h)
  }

  /** One turn of pass 1 or 2 at index `at`: at a line passing `item`, both halves; the scan
      goes on after the item. */
  function SpaceTurn(lines: seq<string>, fixes: seq<Fix>, at: nat, item: string -> bool, before: string -> bool,
                     after: string -> bool, beforeFix: Fix, afterFix: Fix): (t: Turn)
    requires at < |lines|
    ensures |t.lines| - |lines| == |t.fixes| - |fixes| && t.next <= |t.lines|
    ensures forall f :: f in t.fixes ==> f in fixes || f == beforeFix || f == afterFix
  {
    if !item(lines[at]) then Turn(lines, fixes, at + 1)
    else
      var b := BlankBefore(lines, fixes, at, before, beforeFix);
      var a := BlankAfter(b.lines, b.fixes, b.next, after, afterFix);
      Turn(a.lines, a.fixes, a.next + 1)
  }

  /** A turn of pass 1: headings, with blank and `#` lines as acceptable neighbours. */
  function HeadingTurn(lines: seq<string>, fixes: seq<Fix>, at: nat): Turn
    requires at < |lines|
  {
    var shown := Prefix(lines[at], 50);
    SpaceTurn(lines, fixes, at, IsHeading, HeadingNeighbour, HeadingNeighbour,
              BlankBeforeHeading(shown), BlankAfterHeading(shown))
  }

  /** A turn of pass 2: list items, with the neighbours MD032 accepts. */
  function ListTurn(lines: seq<string>, fixes: seq<Fix>, at: nat): Turn
    requires at < |lines|
  {
    var shown := Prefix(Trim(lines[at]), 30);
    SpaceTurn(lines, fixes, at, IsListItem, ListBefore, ListAfter, BlankBeforeList(shown), BlankAfterList(shown))
  }

  /** The first fence after line `i`, or -1. */
  function ClosingFence(lines: seq<string>, i: nat): (j: int)
    ensures j == -1 || (i < j < |lines| && IsFence(lines[j]))
    ensures forall k :: i < k < |lines| && (j == -1 || k < j) ==> !IsFence(lines[k])
    decreases |lines| - i
  {
    if i + 1 >= |lines| then -1
    else if IsFence(lines[i + 1]) then i + 1
    else ClosingFence(lines, i + 1)
  }

  /** The second half of a turn of pass 3 at the fence at `h`: an empty line after the next
      fence when the line following that one is not blank. */
  function FenceAfter(lines: seq<string>, fixes: seq<Fix>, h: nat): (t: Turn)
    requires h < |lines|
    ensures |t.lines| - |lines| == |t.fixes| - |fixes| && t.next == h
    ensures t.fixes == fixes || t.fixes == fixes + [BlankAfterFence]
  {
    var c := ClosingFence(lines, h);
    if c != -1 && c < |lines| - 1 && !IsBlank(lines[c + 1]) then
      Turn(Insert(lines, c + 1, ""), fixes + [BlankAfterFence], h)
    else Turn(lines, fixes, h)
  }

  /** One turn of pass 3 at index `at`: at a fence, an empty line before it when the line
      before is not blank, then the second half; the scan goes on after the fence. */
  function FenceTurn(lines: seq<string>, fixes: seq<Fix>, at: nat): (t: Turn)
    requires at < |lines|
    ensures |t.lines| - |lines| == |t.fixes| - |fixes| && t.next <= |t.lines|
    ensures forall f :: f in t.fixes ==> f in fixes || f == BlankBeforeFence || f == BlankAfterFence
  {
    if !IsFence(lines[at]) then Turn(lines, fixes, at + 1)
    else
      var b := BlankBefore(lines, fixes, at, IsBlank, BlankBeforeFence);
      var a := FenceAfter(b.lines, b.fixes, b.next);
      Turn(a.lines, a.fixes, a.next + 1)
  }

  /** The first half sets off the line before the item and keeps the earlier items set off. */
  lemma BlankBeforeSetOff(lines: seq<string>, fixes: seq<Fix>, at: nat, item: string -> bool, before: string -> bool, after: string -> bool,
                          fix: Fix)
    requires at < |lines| && !item("") && before("") && after("")
    requires SetOffBelow(lines, at, item, before, after)
    ensures var t := BlankBefore(lines, fixes, at, before, fix);
      SetOffBelow(t.lines, t.next, item, before, after) && (t.next == 0 || before(t.lines[t.next - 1]))
  {
    if at > 0 && !before(lines[at - 1]) {
      SetOffInsert(lines, at, at, item, before, after);
      var r := Insert(lines, at, "");
      assert forall k {:trigger SetOff(r, k, before, after)} :: 0 <= k < at + 1 && k < |r| && item(r[k]) ==> k < at;
    }
  }

  /** The second half sets off the item itself, once the line before it is acceptable. */
  lemma BlankAfterSetOff(lines: seq<string>, fixes: seq<Fix>, h: nat, item: string -> bool, before: string -> bool, after: string -> bool,
                         fix: Fix)
    requires h < |lines| && !item("") && before("") && after("")
    requires SetOffBelow(lines, h, item, before, after) && (h == 0 || before(lines[h - 1]))
    ensures var t := BlankAfter(lines, fixes, h, after, fix); SetOffBelow(t.lines, h + 1, item, before, after)
  {
    var t := BlankAfter(lines, fixes, h, after, fix);
    if h < |lines| - 1 && !after(lines[h + 1]) {
      SetOffInsert(lines, h, h + 1, item, before, after);
    }
    assert h > 0 ==> t.lines[h - 1] == lines[h - 1];
    assert SetOff(t.lines, h, before, after);
  }

  /** A turn sets off the item it looks at and keeps the earlier items set off. */
  lemma SpaceTurnSetOff(lines: seq<string>, fixes: seq<Fix>, at: nat, item: string -> bool, before: string -> bool, after: string -> bool,
                        beforeFix: Fix, afterFix: Fix)
    requires at < |lines| && !item("") && before("") && after("")
    requires SetOffBelow(lines, at, item, before, after)
    ensures var t := SpaceTurn(lines, fixes, at, item, before, after, beforeFix, afterFix);
      SetOffBelow(t.lines, t.next, item, before, after)
  {
    if item(lines[at]) {
      BlankBeforeSetOff(lines, fixes, at, item, before, after, beforeFix);
      var b := BlankBefore(lines, fixes, at, before, beforeFix);
      BlankAfterSetOff(b.lines, b.fixes, b.next, item, before, after, afterFix);
    } else {
      assert forall k {:trigger SetOff(lines, k, before, after)} :: 0 <= k < at + 1 && k < |lines| && item(lines[k]) ==> k < at;
    }
  }

  /** An empty line inserted by either half keeps any kind of line set off throughout. */
  lemma HalfTurnKeeps(lines: seq<string>, t: Turn, p: nat, item: string -> bool, before: string -> bool, after: string -> bool)
    requires p <= |lines| && !item("") && before("") && after("")
    requires t.lines == lines || t.lines == Insert(lines, p, "")
    requires SetOffBelow(lines, |lines|, item, before, after)
    ensures SetOffBelow(t.lines, |t.lines|, item, before, after)
  {
    if t.lines != lines {
      SetOffInsertAll(lines, p, item, before, after);
    }
  }

  /** A turn inserts empty lines only, so it keeps any kind of line set off throughout. */
  lemma SpaceTurnKeeps(lines: seq<string>, fixes: seq<Fix>, at: nat, item: string -> bool, before: string -> bool, after: string -> bool,
                       beforeFix: Fix, afterFix: Fix, item2: string -> bool, before2: string -> bool, after2: string -> bool)
    requires at < |lines| && !item2("") && before2("") && after2("")
    requires SetOffBelow(lines, |lines|, item2, before2, after2)
    ensures var t := SpaceTurn(lines, fixes, at, item, before, after, beforeFix, afterFix);
      SetOffBelow(t.lines, |t.lines|, item2, before2, after2)
  {
    if item(lines[at]) {
      var b := BlankBefore(lines, fixes, at, before, beforeFix);
      HalfTurnKeeps(lines, b, at, item2, before2, after2);
      var a := BlankAfter(b.lines, b.fixes, b.next, after, afterFix);
      HalfTurnKeeps(b.lines, a, b.next + 1, item2, before2, after2);
    }
  }

  /** A turn of pass 3 inserts empty lines only, so it keeps any kind of line set off. */
  lemma FenceTurnKeeps(lines: seq<string>, fixes: seq<Fix>, at: nat, item: string -> bool, before: string -> bool, after: string -> bool)
    requires at < |lines| && !item("") && before("") && after("")
    requires SetOffBelow(lines, |lines|, item, before, after)
    ensures SetOffBelow(FenceTurn(lines, fixes, at).lines, |FenceTurn(lines, fixes, at).lines|, item, before, after)
  {
    if IsFence(lines[at]) {
      var b := BlankBefore(lines, fixes, at, IsBlank, BlankBeforeFence);
      HalfTurnKeeps(lines, b, at, item, before, after);
      var c := ClosingFence(b.lines, b.next);
      var a := FenceAfter(b.lines, b.fixes, b.next);
      HalfTurnKeeps(b.lines, a, if c == -1 then 0 else c + 1, item, before, after);
    }
  }

  /** Pass 1 (MD022): afterwards every heading has a blank line, a `#` line or the edge of
      the text on both sides; only empty lines were inserted, one per fix. */
  method SpaceHeadings(input: seq<string>) returns (lines: seq<string>, fixes: seq<Fix>)
    ensures BlanksInserted(input, lines)
    ensures HeadingsSpaced(lines)
    ensures |lines| == |input| + |fixes|
    ensures forall f :: f in fixes ==> f.BlankBeforeHeading? || f.BlankAfterHeading?
  {
    lines, fixes := input, [];
    BlanksInsertedRefl(input);
    var i := 0;
    while i < |lines|
      invariant 0 <= i <= |lines|
      invariant BlanksInserted(input, lines)
      invariant SetOffBelow(lines, i, IsHeading, HeadingNeighbour, HeadingNeighbour)
      invariant |lines| == |input| + |fixes|
      invariant forall f :: f in fixes ==> f.BlankBeforeHeading? || f.BlankAfterHeading?
      decreases |lines| - i, if i < |lines| && lines[i] != "" then 1 else 0
    {
      EmptyLineShape();
      SpaceTurnSetOff(lines, fixes, i, IsHeading, HeadingNeighbour, HeadingNeighbour,
                      BlankBeforeHeading(Prefix(lines[i], 50)), BlankAfterHeading(Prefix(lines[i], 50)));
      lines, fixes, i := SpaceHeadingAt(input, lines, fixes, i);
    }
  }

  /** One turn of pass 1 at index `at`: it does what `HeadingTurn` describes, inserts empty
      lines only, and moves the scan forward by the termination measure. */
  method SpaceHeadingAt(ghost input: seq<string>, lines0: seq<string>, fixes0: seq<Fix>, at: nat)
    returns (lines: seq<string>, fixes: seq<Fix>, next: nat)
    requires at < |lines0| && BlanksInserted(input, lines0)
    ensures var t := HeadingTurn(lines0, fixes0, at); lines == t.lines && fixes == t.fixes && next == t.next
    ensures BlanksInserted(input, lines)
    ensures || |lines| - next < |lines0| - at
            || (|lines| - next == |lines0| - at && next < |lines| && lines[next] == "" && lines0[at] != "")
  {
    lines, fixes, next := lines0, fixes0, at;
    var line := lines[next];
    if IsHeading(line) {
      lines, fixes, next := BlankBeforeAt(input, lines, fixes, next, HeadingNeighbour, BlankBeforeHeading(Prefix(line, 50)));
      lines, fixes := BlankAfterAt(input, lines, fixes, next, HeadingNeighbour, BlankAfterHeading(Prefix(line, 50)));
    }
    next := next + 1;
  }

  /** The first half of a turn of pass 1 or 2: it does what `BlankBefore` describes. */
  method BlankBeforeAt(ghost input: seq<string>, lines0: seq<string>, fixes0: seq<Fix>, at: nat,
                       before: string -> bool, fix: Fix)
    returns (lines: seq<string>, fixes: seq<Fix>, next: nat)
    requires at < |lines0| && BlanksInserted(input, lines0)
    ensures var t := BlankBefore(lines0, fixes0, at, before, fix); lines == t.lines && fixes == t.fixes && next == t.next
    ensures BlanksInserted(input, lines)
  {
    lines, fixes, next := lines0, fixes0, at;
    if next > 0 && !before(lines[next - 1]) {
      lines, fixes := InsertBlank(input, lines, fixes, next, fix);
      next := next + 1;
    }
  }

  /** The second half of a turn of pass 1 or 2: it does what `BlankAfter` describes. */
  method BlankAfterAt(ghost input: seq<string>, lines0: seq<string>, fixes0: seq<Fix>, at: nat,
                      after: string -> bool, fix: Fix)
    returns (lines: seq<string>, fixes: seq<Fix>)
    requires at < |lines0| && BlanksInserted(input, lines0)
    ensures var t := BlankAfter(lines0, fixes0, at, after, fix); lines == t.lines && fixes == t.fixes
    ensures BlanksInserted(input, lines)
  {
    lines, fixes := lines0, fixes0;
    if at < |lines| - 1 && !after(lines[at + 1]) {
      lines, fixes := InsertBlank(input, lines, fixes, at + 1, fix);
    }
  }

  /** Pass 2 (MD032): afterwards every list item has an item, a blank line or the edge of the
      text before it, and an item, a blank line, a `#` line or the edge after it; headings
      that were spaced stay spaced; only empty lines were inserted, one per fix. */
  method SpaceLists(input: seq<string>) returns (lines: seq<string>, fixes: seq<Fix>)
    ensures BlanksInserted(input, lines)
    ensures ListsSpaced(lines)
    ensures HeadingsSpaced(input) ==> HeadingsSpaced(lines)
    ensures |lines| == |input| + |fixes|
    ensures forall f :: f in fixes ==> f.BlankBeforeList? || f.BlankAfterList?
  {
    lines, fixes := input, [];
    BlanksInsertedRefl(input);
    var i := 0;
    while i < |lines|
      invariant 0 <= i <= |lines|
      invariant BlanksInserted(input, lines)
      invariant SetOffBelow(lines, i, IsListItem, ListBefore, ListAfter)
      invariant HeadingsSpaced(input) ==> HeadingsSpaced(lines)
      invariant |lines| == |input| + |fixes|
      invariant forall f :: f in fixes ==> f.BlankBeforeList? || f.BlankAfterList?
      decreases |lines| - i, if i < |lines| && lines[i] != "" then 1 else 0
    {
      EmptyLineShape();
      var shown := Prefix(Trim(lines[i]), 30);
      SpaceTurnSetOff(lines, fixes, i, IsListItem, ListBefore, ListAfter, BlankBeforeList(shown), BlankAfterList(shown));
      if HeadingsSpaced(input) {
        SpaceTurnKeeps(lines, fixes, i, IsListItem, ListBefore, ListAfter, BlankBeforeList(shown), BlankAfterList(shown),
                       IsHeading, HeadingNeighbour, HeadingNeighbour);
      }
      lines, fixes, i := SpaceListAt(input, lines, fixes, i);
    }
  }

  /** One turn of pass 2 at index `at`: it does what `ListTurn` describes, inserts empty lines
      only, and moves the scan forward by the termination measure. */
  method SpaceListAt(ghost input: seq<string>, lines0: seq<string>, fixes0: seq<Fix>, at: nat)
    returns (lines: seq<string>, fixes: seq<Fix>, next: nat)
    requires at < |lines0| && BlanksInserted(input, lines0)
    ensures var t := ListTurn(lines0, fixes0, at); lines == t.lines && fixes == t.fixes && next == t.next
    ensures BlanksInserted(input, lines)
    ensures || |lines| - next < |lines0| - at
            || (|lines| - next == |lines0| - at && next < |lines| && lines[next] == "" && lines0[at] != "")
  {
    lines, fixes, next := lines0, fixes0, at;
    var line := lines[next];
    if IsListItem(line) {
      // The script reads a missing neighbour as '', which is blank and so never
      // asks for a blank line.
      var shown := Prefix(Trim(line), 30);
      lines, fixes, next := BlankBeforeAt(input, lines, fixes, next, ListBefore, BlankBeforeList(shown));
      lines, fixes := BlankAfterAt(input, lines, fixes, next, ListAfter, BlankAfterList(shown));
    }
    next := next + 1;
  }

  /** The number of fences directly followed by a non-blank line: each fix of pass 3 after
      a closing fence removes one, and no inserted blank line makes a new one. */
  function PendingFences(s: seq<string>): nat
    decreases |s|
  {
    if |s| < 2 then 0
    else (if IsFence(s[0]) && !IsBlank(s[1]) then 1 else 0) + PendingFences(s[1..])
  }

  lemma {:induction false} PendingFencesInsert(s: seq<string>, p: nat)
    requires p <= |s|
    ensures PendingFences(Insert(s, p, "")) <= PendingFences(s)
    ensures 0 < p < |s| && IsFence(s[p - 1]) && !IsBlank(s[p]) ==>
      PendingFences(Insert(s, p, "")) < PendingFences(s)
    decreases p
  {
    var r := Insert(s, p, "");
    EmptyLineShape();
    if p == 0 {
      assert r[1..] == s;
    } else {
      assert r[1..] == Insert(s[1..], p - 1, "");
      PendingFencesInsert(s[1..], p - 1);
    }
  }

  /** The inner loop of pass 3: the first fence after position `i`, or -1. */
  method FindClosingFence(lines: seq<string>, i: nat) returns (j: int)
    ensures j == -1 ==> forall k :: i < k < |lines| ==> !IsFence(lines[k])
    ensures j != -1 ==>
      i < j < |lines| && IsFence(lines[j]) && forall k :: i < k < j ==> !IsFence(lines[k])
  {
    var k := i + 1;
    while k < |lines|
      invariant i + 1 <= k
      invariant forall m :: i < m < k && m < |lines| ==> !IsFence(lines[m])
    {
      if IsFence(lines[k]) {
        return k;
      }
      k := k + 1;
    }
    return -1;
  }

  /** Pass 3 (MD031): a blank line before a fence whose previous line is not blank, and
      after the next fence when the line following that one is not blank. Headings and list
      items that were spaced stay spaced; only empty lines were inserted, one per fix. */
  method SpaceFences(input: seq<string>) returns (lines: seq<string>, fixes: seq<Fix>)
    ensures BlanksInserted(input, lines)
    ensures HeadingsSpaced(input) ==> HeadingsSpaced(lines)
    ensures ListsSpaced(input) ==> ListsSpaced(lines)
    ensures |lines| == |input| + |fixes|
    ensures forall f :: f in fixes ==> f == BlankBeforeFence || f == BlankAfterFence
  {
    lines, fixes := input, [];
    BlanksInsertedRefl(input);
    var i := 0;
    while i < |lines|
      invariant 0 <= i <= |lines|
      invariant BlanksInserted(input, lines)
      invariant HeadingsSpaced(input) ==> HeadingsSpaced(lines)
      invariant ListsSpaced(input) ==> ListsSpaced(lines)
      invariant |lines| == |input| + |fixes|
      invariant forall f :: f in fixes ==> f == BlankBeforeFence || f == BlankAfterFence
      decreases |lines| - i + PendingFences(lines)
    {
      EmptyLineShape();
      if HeadingsSpaced(input) {
        FenceTurnKeeps(lines, fixes, i, IsHeading, HeadingNeighbour, HeadingNeighbour);
      }
      if ListsSpaced(input) {
        FenceTurnKeeps(lines, fixes, i, IsListItem, ListBefore, ListAfter);
      }
      lines, fixes, i := SpaceFenceAt(input, lines, fixes, i);
    }
  }

  /** One turn of pass 3 at index `at`: it does what `FenceTurn` describes, inserts empty lines
      only, and strictly lowers the lines left to scan plus the fences still followed by a
      non-blank line. */
  method SpaceFenceAt(ghost input: seq<string>, lines0: seq<string>, fixes0: seq<Fix>, at: nat)
    returns (lines: seq<string>, fixes: seq<Fix>, next: nat)
    requires at < |lines0| && BlanksInserted(input, lines0)
    ensures var t := FenceTurn(lines0, fixes0, at); lines == t.lines && fixes == t.fixes && next == t.next
    ensures BlanksInserted(input, lines)
    ensures |lines| - next + PendingFences(lines) < |lines0| - at + PendingFences(lines0)
  {
    lines, fixes, next := lines0, fixes0, at;
    if IsFence(lines[next]) {
      ghost var b := BlankBefore(lines0, fixes0, at, IsBlank, BlankBeforeFence);
      if next > 0 && !IsBlank(lines[next - 1]) {
        PendingFencesInsert(lines, next);
        lines, fixes := InsertBlank(input, lines, fixes, next, BlankBeforeFence);
        next := next + 1;
      }
      assert lines == b.lines && fixes == b.fixes && next == b.next;
      assert |lines| - next + PendingFences(lines) <= |lines0| - at + PendingFences(lines0);
      lines, fixes := CloseFenceAt(input, lines, fixes, next);
    }
    next := next + 1;
  }

  /** The second half of a turn of pass 3: it does what `FenceAfter` describes and does not
      raise the lines left to scan plus the fences still followed by a non-blank line. */
  method CloseFenceAt(ghost input: seq<string>, lines0: seq<string>, fixes0: seq<Fix>, at: nat)
    returns (lines: seq<string>, fixes: seq<Fix>)
    requires at < |lines0| && BlanksInserted(input, lines0)
    ensures var t := FenceAfter(lines0, fixes0, at); lines == t.lines && fixes == t.fixes
    ensures BlanksInserted(input, lines)
    ensures |lines| + PendingFences(lines) <= |lines0| + PendingFences(lines0)
  {
    lines, fixes := lines0, fixes0;
    var closingFenceIndex := FindClosingFence(lines, at);
    assert closingFenceIndex == ClosingFence(lines0, at);
    if closingFenceIndex != -1 && closingFenceIndex < |lines| - 1 {
      if !IsBlank(lines[closingFenceIndex + 1]) {
        PendingFencesInsert(lines, closingFenceIndex + 1);
        lines, fixes := InsertBlank(input, lines, fixes, closingFenceIndex + 1, BlankAfterFence);
      }
    }
  }

  // ---------------------------------------------------------------------------
  // Changed lines

  /** The positions, in ascending order, where two lists of the same length differ: passes
      4-6 record one fix for each of them, in this order. */
  function ChangedLines(a: seq<string>, b: seq<string>): (r: seq<nat>)
    requires |a| == |b|
    ensures forall j :: 0 <= j < |r| ==> r[j] < |a| && a[r[j]] != b[r[j]]
    ensures forall j, k :: 0 <= j < k < |r| ==> r[j] < r[k]
    decreases |a|
  {
    if |a| == 0 then []
    else ChangedLines(a[..|a| - 1], b[..|b| - 1]) + (if a[|a| - 1] != b[|b| - 1] then [|a| - 1] else [])
  }

  /** Looking at one more line adds its position when it differs. */
  lemma ChangedLinesSnoc(a: seq<string>, b: seq<string>, i: nat)
    requires i < |a| == |b|
    ensures ChangedLines(a[..i + 1], b[..i + 1]) == ChangedLines(a[..i], b[..i]) + (if a[i] != b[i] then [i] else [])
  {
    assert a[..i + 1][..i] == a[..i] && b[..i + 1][..i] == b[..i];
  }

  /** Every position where the lists differ is listed. */
  lemma {:induction false} ChangedLinesComplete(a: seq<string>, b: seq<string>, k: nat)
    requires k < |a| == |b| && a[k] != b[k]
    ensures k in ChangedLines(a, b)
    decreases |a|
  {
    if k < |a| - 1 {
      ChangedLinesComplete(a[..|a| - 1], b[..|b| - 1], k);
    }
  }

  /** No position differs exactly when the lists are equal. */
  lemma ChangedLinesEmpty(a: seq<string>, b: seq<string>)
    requires |a| == |b|
    ensures ChangedLines(a, b) == [] <==> a == b
  {
    if a != b {
      var k :| 0 <= k < |a| && a[k] != b[k];
      ChangedLinesComplete(a, b, k);
    }
  }

  /** One fix per changed line, in line order, each made by `fixAt` from the line before,
      the line after and its position. */
  ghost predicate RecordsChanges(input: seq<string>, lines: seq<string>, fixes: seq<Fix>,
                                 fixAt: (string, string, nat) -> Fix)
    requires |input| == |lines|
  {
    var changed := ChangedLines(input, lines);
    |fixes| == |changed|
    && forall j :: 0 <= j < |fixes| ==> fixes[j] == fixAt(input[changed[j]], lines[changed[j]], changed[j])
  }

  /** A turn at line `i` that records a fix exactly when it changes the line keeps the fixes
      recording the changes. */
  lemma RecordsChangesStep(input: seq<string>, before: seq<string>, lines: seq<string>, fixes0: seq<Fix>,
                           fixes: seq<Fix>, i: nat, fixAt: (string, string, nat) -> Fix)
    requires i < |input| == |before| == |lines| && lines[..i] == before[..i]
    requires RecordsChanges(input[..i], before[..i], fixes0, fixAt)
    requires fixes == if lines[i] != input[i] then fixes0 + [fixAt(input[i], lines[i], i)] else fixes0
    ensures RecordsChanges(input[..i + 1], lines[..i + 1], fixes, fixAt)
  {
    ChangedLinesSnoc(input, lines, i);
    assert input[..i + 1][..i] == input[..i];
  }

  /** The fix of pass 4: the language now on the fence. */
  function LanguageFix(original: string, labelled: string, k: nat): Fix {
    FenceLanguage(FenceLabel(labelled))
  }

  /** The fix of pass 5: the demoted heading, cut to 50 characters. */
  function DemotionFix(original: string, demoted: string, k: nat): Fix {
    DemotedHeading(Prefix(original, 50))
  }

  /** The fix of pass 6: the 1-based number of the line. */
  function TrimFix(original: string, trimmed: string, k: nat): Fix {
    TrailingWhitespace(k + 1)
  }

  // ---------------------------------------------------------------------------
  // Pass 4: fence languages

  /** `lines.slice(i + 1, i + 4).join('\n')`: up to three lines after position `i`. */
  function Window(lines: seq<string>, i: nat): string
    requires i < |lines|
  {
    var hi := if i + 4 < |lines| then i + 4 else |lines|;
    Join(lines[i + 1..hi], '\n')
  }

  /** The language guessed from the text after a bare fence, `''` for none. */
  function GuessLanguage(text: string): string {
    if Contains(text, "function ") || Contains(text, "const ") || Contains(text, "npm ") then "javascript"
    else if Contains(text, "cd ") || Contains(text, "git ") || Contains(text, "npm ") then "bash"
    else if Contains(text, "interface ") || Contains(text, "type ") then "typescript"
    else if Contains(text, "{") && Contains(text, "}") then "json"
    else ""
  }

  /** The guesses come in priority order; `npm ` always gives `javascript`, so the
      `npm ` test of the second rule never decides anything. */
  lemma GuessLanguageOrder(text: string)
    ensures GuessLanguage(text) in {"", "javascript", "bash", "typescript", "json"}
    ensures Contains(text, "npm ") ==> GuessLanguage(text) == "javascript"
    ensures GuessLanguage(text) == "bash" <==>
      !Contains(text, "function ") && !Contains(text, "const ") && !Contains(text, "npm ")
      && (Contains(text, "cd ") || Contains(text, "git "))
    ensures GuessLanguage(text) == "" ==> !Contains(text, "npm ") && !Contains(text, "git ")
  {
  }

  /** What pass 4 makes of line `k`: a bare fence gains the guessed language, when there
      is one; every other line stays. */
  function LabelledLine(input: seq<string>, k: nat): string
    requires k < |input|
  {
    if IsBareFence(input[k]) && GuessLanguage(Window(input, k)) != "" then
      "```" + GuessLanguage(Window(input, k))
    else input[k]
  }

  /** What follows the three backticks of a fence: its language label. */
  function FenceLabel(line: string): string {
    if |line| >= 3 then line[3..] else ""
  }

  /** A bare fence is never already labelled, so labelling always changes it. */
  lemma LabelChangesFence(line: string, language: string)
    requires IsBareFence(line) && language in {"javascript", "bash", "typescript", "json"}
    ensures "```" + language != line
  {
    assert ("```" + language)[3] == language[0] && !IsSpace(language[0]);
    assert |line| > 3 ==> line[3] == line[3..][0];
  }

  /** Pass 4 (MD040). Later lines are read before they are rewritten, so each guess sees
      the lines as they were when the pass began; one language fix per changed line, in
      line order. */
  method LabelFences(input: seq<string>) returns (lines: seq<string>, fixes: seq<Fix>)
    ensures |lines| == |input|
    ensures forall k :: 0 <= k < |input| ==> lines[k] == LabelledLine(input, k)
    ensures RecordsChanges(input, lines, fixes, LanguageFix)
    ensures fixes == [] <==> lines == input
  {
    lines, fixes := input, [];
    var i := 0;
    while i < |lines|
      invariant 0 <= i <= |lines| == |input|
      invariant forall k :: 0 <= k < i ==> lines[k] == LabelledLine(input, k)
      invariant forall k :: i <= k < |lines| ==> lines[k] == input[k]
      invariant RecordsChanges(input[..i], lines[..i], fixes, LanguageFix)
    {
      ghost var before, fixesBefore := lines, fixes;
      lines, fixes := LabelFenceAt(input, lines, fixes, i);
      LabelledStep(input, before, lines, fixesBefore, fixes, i);
      i := i + 1;
    }
    assert input[..i] == input && lines[..i] == lines;
    ChangedLinesEmpty(input, lines);
  }

  /** A turn of pass 4 at line `i` extends the loop's invariant by one line. */
  lemma LabelledStep(input: seq<string>, before: seq<string>, lines: seq<string>, fixes0: seq<Fix>, fixes: seq<Fix>, i: nat)
    requires i < |input| == |before|
    requires forall k :: 0 <= k < i ==> before[k] == LabelledLine(input, k)
    requires forall k :: i <= k < |before| ==> before[k] == input[k]
    requires RecordsChanges(input[..i], before[..i], fixes0, LanguageFix)
    requires lines == before[i := LabelledLine(input, i)]
    requires fixes == if lines[i] != input[i] then fixes0 + [LanguageFix(input[i], lines[i], i)] else fixes0
    ensures forall k :: 0 <= k < i + 1 ==> lines[k] == LabelledLine(input, k)
    ensures forall k :: i + 1 <= k < |lines| ==> lines[k] == input[k]
    ensures RecordsChanges(input[..i + 1], lines[..i + 1], fixes, LanguageFix)
  {
    assert lines[..i] == before[..i];
    RecordsChangesStep(input, before, lines, fixes0, fixes, i, LanguageFix);
  }

  /** One turn of pass 4 at line `i`, where the lines from `i` on are still the input's. */
  method LabelFenceAt(input: seq<string>, lines0: seq<string>, fixes0: seq<Fix>, i: nat)
    returns (lines: seq<string>, fixes: seq<Fix>)
    requires i < |lines0| == |input|
    requires forall k :: i <= k < |lines0| ==> lines0[k] == input[k]
    ensures lines == lines0[i := LabelledLine(input, i)]
    ensures fixes == if lines[i] != input[i] then fixes0 + [LanguageFix(input[i], lines[i], i)] else fixes0
  {
    lines, fixes := lines0, fixes0;
    var line := lines[i];
    if IsBareFence(line) {
      var hi := if i + 4 < |lines| then i + 4 else |lines|;
      SameSlice(lines, input, i + 1, hi);
      var nextFewLines := Join(lines[i + 1..hi], '\n');
      var language := GuessLanguage(nextFewLines);
      if language != "" {
        GuessLanguageOrder(nextFewLines);
        LabelChangesFence(line, language);
        lines := lines[i := "```" + language];
        fixes := fixes + [FenceLanguage(language)];
        assert FenceLabel(lines[i]) == language;
      }
    }
  }

  /** Two lists that agree from `lo` on agree on every slice there. */
  lemma SameSlice(a: seq<string>, b: seq<string>, lo: nat, hi: nat)
    requires lo <= hi <= |a| == |b|
    requires forall k :: lo <= k < |a| ==> a[k] == b[k]
    ensures a[lo..hi] == b[lo..hi]
  {
    assert forall k :: 0 <= k < hi - lo ==> a[lo..hi][k] == a[lo + k] == b[lo + k];
  }

  /** Pass 4 rewrites bare fences only, each to a fence with one of the four labels. */
  lemma LabelledLineChanges(input: seq<string>, k: nat)
    requires k < |input|
    ensures LabelledLine(input, k) != input[k] ==>
      IsBareFence(input[k]) && LabelledLine(input, k) in
        {"```javascript", "```bash", "```typescript", "```json"}
  {
    GuessLanguageOrder(Window(input, k));
    assert "```" + "javascript" == "```javascript" && "```" + "bash" == "```bash";
    assert "```" + "typescript" == "```typescript" && "```" + "json" == "```json";
  }

  // ---------------------------------------------------------------------------
  // Pass 5: one top-level heading

  /** What pass 5 makes of line `k`: a `# ` heading with another one before it gains a
      `#`; every other line stays. */
  function DemotedLine(input: seq<string>, k: nat): string
    requires k < |input|
  {
    if IsTopHeading(input[k]) && TopHeadingBefore(input, k) then "#" + input[k] else input[k]
  }

  /** Some line before line `k` is a `# ` heading. */
  predicate TopHeadingBefore(input: seq<string>, k: nat) {
    exists j :: 0 <= j < k && j < |input| && IsTopHeading(input[j])
  }

  /** Pass 5 (MD025): every `# ` heading after the first becomes `## `. */
  method DemoteHeadings(input: seq<string>) returns (lines: seq<string>, fixes: seq<Fix>)
    ensures |lines| == |input|
    ensures forall k :: 0 <= k < |input| ==> lines[k] == DemotedLine(input, k)
    ensures RecordsChanges(input, lines, fixes, DemotionFix)
    ensures fixes == [] <==> lines == input
  {
    lines, fixes := input, [];
    var hasTopLevelHeading := false;
    var i := 0;
    while i < |lines|
      invariant 0 <= i <= |lines| == |input|
      invariant hasTopLevelHeading == TopHeadingBefore(input, i)
      invariant forall k :: 0 <= k < i ==> lines[k] == DemotedLine(input, k)
      invariant forall k :: i <= k < |lines| ==> lines[k] == input[k]
      invariant RecordsChanges(input[..i], lines[..i], fixes, DemotionFix)
    {
      ghost var before, fixesBefore := lines, fixes;
      lines, fixes, hasTopLevelHeading := DemoteHeadingAt(input, lines, fixes, i, hasTopLevelHeading);
      DemotedStep(input, before, lines, fixesBefore, fixes, i);
      i := i + 1;
    }
    assert input[..i] == input && lines[..i] == lines;
    ChangedLinesEmpty(input, lines);
  }

  /** A turn of pass 5 at line `i` extends the loop's invariant by one line. */
  lemma DemotedStep(input: seq<string>, before: seq<string>, lines: seq<string>, fixes0: seq<Fix>, fixes: seq<Fix>, i: nat)
    requires i < |input| == |before|
    requires forall k :: 0 <= k < i ==> before[k] == DemotedLine(input, k)
    requires forall k :: i <= k < |before| ==> before[k] == input[k]
    requires RecordsChanges(input[..i], before[..i], fixes0, DemotionFix)
    requires lines == before[i := DemotedLine(input, i)]
    requires fixes == if lines[i] != input[i] then fixes0 + [DemotionFix(input[i], lines[i], i)] else fixes0
    ensures forall k :: 0 <= k < i + 1 ==> lines[k] == DemotedLine(input, k)
    ensures forall k :: i + 1 <= k < |lines| ==> lines[k] == input[k]
    ensures RecordsChanges(input[..i + 1], lines[..i + 1], fixes, DemotionFix)
  {
    assert lines[..i] == before[..i];
    RecordsChangesStep(input, before, lines, fixes0, fixes, i, DemotionFix);
  }

  /** One turn of pass 5 at line `i`, where the lines from `i` on are still the input's and
      `seen0` says whether a `# ` heading came before. */
  method DemoteHeadingAt(input: seq<string>, lines0: seq<string>, fixes0: seq<Fix>, i: nat, seen0: bool)
    returns (lines: seq<string>, fixes: seq<Fix>, seen: bool)
    requires i < |lines0| == |input|
    requires forall k :: i <= k < |lines0| ==> lines0[k] == input[k]
    requires seen0 == TopHeadingBefore(input, i)
    ensures lines == lines0[i := DemotedLine(input, i)]
    ensures fixes == if lines[i] != input[i] then fixes0 + [DemotionFix(input[i], lines[i], i)] else fixes0
    ensures seen == TopHeadingBefore(input, i + 1)
  {
    lines, fixes, seen := lines0, fixes0, seen0;
    var line := lines[i];
    if IsTopHeading(line) {
      if seen {
        assert ("#" + line)[1] == line[0];
        lines := lines[i := "#" + line];
        fixes := fixes + [DemotedHeading(Prefix(line, 50))];
      } else {
        seen := true;
      }
    }
  }

  /** After pass 5 only the first `# ` heading is left: any later one starts with `##`. */
  lemma {:induction false} OneTopHeading(input: seq<string>, lines: seq<string>)
    requires |lines| == |input|
    requires forall k :: 0 <= k < |input| ==> lines[k] == DemotedLine(input, k)
    ensures forall j, k :: 0 <= j < |lines| && 0 <= k < |lines| && IsTopHeading(lines[j]) && IsTopHeading(lines[k]) ==> j == k
    ensures forall k :: 0 <= k < |lines| && IsTopHeading(lines[k]) ==>
      lines[k] == input[k] && forall j :: 0 <= j < k ==> !IsTopHeading(input[j])
  {
    forall k | 0 <= k < |lines| && IsTopHeading(lines[k])
      ensures lines[k] == input[k] && forall j :: 0 <= j < k ==> !IsTopHeading(input[j])
    {
    }
  }

  // ---------------------------------------------------------------------------
  // Pass 6: trailing white space

  /** Pass 6 (MD009): trailing white space is removed from every line, and the (1-based)
      number of each changed line is recorded. */
  method StripTrailingWhitespace(input: seq<string>) returns (lines: seq<string>, fixes: seq<Fix>)
    ensures |lines| == |input|
    ensures forall k :: 0 <= k < |input| ==> TrimmedOf(input[k], lines[k])
    ensures forall k :: 0 <= k < |input| ==> lines[k] == TrimEnd(input[k])
    ensures RecordsChanges(input, lines, fixes, TrimFix)
    ensures fixes == [] <==> lines == input
  {
    lines, fixes := input, [];
    var i := 0;
    while i < |lines|
      invariant 0 <= i <= |lines| == |input|
      invariant forall k :: i <= k < |lines| ==> lines[k] == input[k]
      invariant forall k :: 0 <= k < i ==> lines[k] == StrippedLine(input, k)
      invariant RecordsChanges(input[..i], lines[..i], fixes, TrimFix)
    {
      ghost var before, fixesBefore := lines, fixes;
      lines, fixes := StripLineAt(input, lines, fixes, i);
      StrippedStep(input, before, lines, fixesBefore, fixes, i);
      i := i + 1;
    }
    assert input[..i] == input && lines[..i] == lines;
    ChangedLinesEmpty(input, lines);
    TrimmedLines(input, lines);
  }

  /** `trimmed` is `original` without its trailing white space: a prefix of it, the rest of
      which is white space, ending in a non-space. */
  predicate TrimmedOf(original: string, trimmed: string) {
    && StartsWith(original, trimmed) && IsBlank(original[|trimmed|..])
    && (|trimmed| > 0 ==> !IsSpace(trimmed[|trimmed| - 1]))
  }

  /** Lines cut by `TrimEnd` are their originals without trailing white space. */
  lemma TrimmedLines(input: seq<string>, lines: seq<string>)
    requires |lines| == |input| && forall k :: 0 <= k < |input| ==> lines[k] == TrimEnd(input[k])
    ensures forall k :: 0 <= k < |input| ==> TrimmedOf(input[k], lines[k])
  {
    forall k | 0 <= k < |input| ensures TrimmedOf(input[k], lines[k]) {
      TrimEndSpec(input[k]);
    }
  }

  /** What pass 6 makes of line `k`. */
  function StrippedLine(input: seq<string>, k: nat): string
    requires k < |input|
  {
    TrimEnd(input[k])
  }

  /** A turn of pass 6 at line `i` extends the loop's invariant by one line. */
  lemma StrippedStep(input: seq<string>, before: seq<string>, lines: seq<string>, fixes0: seq<Fix>, fixes: seq<Fix>, i: nat)
    requires i < |input| == |before|
    requires forall k :: 0 <= k < i ==> before[k] == StrippedLine(input, k)
    requires forall k :: i <= k < |before| ==> before[k] == input[k]
    requires RecordsChanges(input[..i], before[..i], fixes0, TrimFix)
    requires lines == before[i := StrippedLine(input, i)]
    requires fixes == if lines[i] != input[i] then fixes0 + [TrimFix(input[i], lines[i], i)] else fixes0
    ensures forall k :: 0 <= k < i + 1 ==> lines[k] == StrippedLine(input, k)
    ensures forall k :: i + 1 <= k < |lines| ==> lines[k] == input[k]
    ensures RecordsChanges(input[..i + 1], lines[..i + 1], fixes, TrimFix)
  {
    assert lines[..i] == before[..i];
    RecordsChangesStep(input, before, lines, fixes0, fixes, i, TrimFix);
  }

  /** One turn of pass 6 at line `i`, where the lines from `i` on are still the input's. */
  method StripLineAt(input: seq<string>, lines0: seq<string>, fixes0: seq<Fix>, i: nat)
    returns (lines: seq<string>, fixes: seq<Fix>)
    requires i < |lines0| == |input|
    requires forall k :: i <= k < |lines0| ==> lines0[k] == input[k]
    ensures lines == lines0[i := StrippedLine(input, i)]
    ensures fixes == if lines[i] != input[i] then fixes0 + [TrimFix(input[i], lines[i], i)] else fixes0
  {
    lines, fixes := lines0, fixes0;
    var originalLine := lines[i];
    var trimmedLine := TrimEnd(originalLine);
    TrimEndSpec(originalLine);
    if originalLine != trimmedLine {
      lines := lines[i := trimmedLine];
      fixes := fixes + [TrailingWhitespace(i + 1)];
    }
  }

  // ---------------------------------------------------------------------------
  // The whole fixer

  /** Pass 4 over a whole list. */
  function Labelled(lines: seq<string>): (r: seq<string>)
    ensures |r| == |lines| && forall k :: 0 <= k < |lines| ==> r[k] == LabelledLine(lines, k)
  {
    seq(|lines|, k requires 0 <= k < |lines| => LabelledLine(lines, k))
  }

  /** Pass 5 over a whole list. */
  function Demoted(lines: seq<string>): (r: seq<string>)
    ensures |r| == |lines| && forall k :: 0 <= k < |lines| ==> r[k] == DemotedLine(lines, k)
  {
    seq(|lines|, k requires 0 <= k < |lines| => DemotedLine(lines, k))
  }

  /** Pass 6 over a whole list. */
  function Stripped(lines: seq<string>): (r: seq<string>)
    ensures |r| == |lines| && forall k :: 0 <= k < |lines| ==> r[k] == TrimEnd(lines[k])
  {
    seq(|lines|, k requires 0 <= k < |lines| => TrimEnd(lines[k]))
  }

  /** Pass 7 (MD047): a newline is added unless the text already ends with one. */
  function WithFinalNewline(text: string): (r: string)
    ensures EndsWith(r, "\n")
    ensures EndsWith(text, "\n") ==> r == text
    ensures !EndsWith(text, "\n") ==> r == text + "\n"
  {
    if EndsWith(text, "\n") then text else text + "\n"
  }

  /** `fixMarkdownContent`: the fixed text always ends with a newline, and when nothing
      was fixed it is the input unchanged. */
  method FixMarkdownContent(content: string) returns (fixed: string, fixes: seq<Fix>)
    ensures exists spaced ::
              && BlanksInserted(Split(content, '\n'), spaced) && HeadingsSpaced(spaced) && ListsSpaced(spaced)
              && fixed == WithFinalNewline(Join(Stripped(Demoted(Labelled(spaced))), '\n'))
    ensures EndsWith(fixed, "\n")
    ensures fixes == [] ==> fixed == content
    ensures !EndsWith(content, "\n") ==> |fixes| > 0
  {
    var lines := Split(content, '\n');
    ghost var original := lines;
    var f1, f2, f3, f4, f5, f6: seq<Fix>;
    lines, f1 := SpaceHeadings(lines);
    ghost var after1 := lines;
    lines, f2 := SpaceLists(lines);
    ghost var after2 := lines;
    lines, f3 := SpaceFences(lines);
    BlanksInsertedTrans(original, after1, after2);
    BlanksInsertedTrans(original, after2, lines);
    ghost var after3 := lines;
    lines, f4 := LabelFences(lines);
    assert lines == Labelled(after3);
    ghost var after4 := lines;
    lines, f5 := DemoteHeadings(lines);
    assert lines == Demoted(after4);
    ghost var after5 := lines;
    lines, f6 := StripTrailingWhitespace(lines);
    assert lines == Stripped(after5);
    fixes := f1 + f2 + f3 + f4 + f5 + f6;
    if fixes == [] {
      BlanksInsertedLength(original, after3);
      JoinSplit(content, '\n');
    }
    var joinedContent := Join(lines, '\n');
    if !EndsWith(joinedContent, "\n") {
      fixes := fixes + [FinalNewline];
      fixed := joinedContent + "\n";
    } else {
      fixed := joinedContent;
    }
    assert BlanksInserted(original, after3) && HeadingsSpaced(after3) && ListsSpaced(after3)
      && fixed == WithFinalNewline(Join(Stripped(Demoted(Labelled(after3))), '\n'));
  }
}
