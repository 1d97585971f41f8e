/** A saved search preset and the two summaries its card shows
    (`polymet-fainder/src/polymet/components/preset-card.tsx`). */
module PresetCard {
  import opened Wrappers
  import opened Text
  import opened SearchBlock

  /** `PresetData`; `lastUsed` is a date as milliseconds since the epoch. */
  datatype PresetData = PresetData(id: string, name: string, description: Option<string>,
                                   blocks: seq<SearchBlockData>, lastUsed: Option<int>, tags: Option<seq<string>>)

  /** How many blocks have type `t`. */
  function TypeCount(blocks: seq<SearchBlockData>, t: string): (n: nat)
    ensures n <= |blocks|
  {
    if |blocks| == 0 then 0
    else TypeCount(blocks[..|blocks| - 1], t) + (if blocks[|blocks| - 1].blockType == t then 1 else 0)
  }

  /** The position of the first block of type `t`, or `|blocks|` when there is none. */
  function FirstIndex(blocks: seq<SearchBlockData>, t: string): (n: nat)
    ensures n <= |blocks|
    ensures n < |blocks| ==> blocks[n].blockType == t
    ensures forall m :: 0 <= m < n ==> blocks[m].blockType != t
    decreases |blocks|
  {
    if |blocks| == 0 then 0
    else if blocks[0].blockType == t then 0
    else 1 + FirstIndex(blocks[1..], t)
  }

  /** One entry of the summary: a block type and how many blocks have it. */
  datatype TypeTally = TypeTally(blockType: string, count: nat)

  /** The sum of the counts of a summary. */
  function Total(summary: seq<TypeTally>): nat {
    if |summary| == 0 then 0 else Total(summary[..|summary| - 1]) + summary[|summary| - 1].count
  }

  function Keys(summary: seq<TypeTally>): seq<string> {
    seq(|summary|, i requires 0 <= i < |summary| => summary[i].blockType)
  }

  predicate Distinct(keys: seq<string>) {
    forall i, j :: 0 <= i < j < |keys| ==> keys[i] != keys[j]
  }

  /** `Object.entries(counts)` for a record whose keys were added in the order `order`. */
  function Entries(order: seq<string>, counts: map<string, nat>): seq<TypeTally>
    requires forall k :: 0 <= k < |order| ==> order[k] in counts
  {
    seq(|order|, i requires 0 <= i < |order| && order[i] in counts => TypeTally(order[i], counts[order[i]]))
  }

  /** Adding one to the count of a key listed once adds one to the total. */
  lemma {:induction false} TotalBump(order: seq<string>, counts: map<string, nat>, t: string)
    requires forall k :: 0 <= k < |order| ==> order[k] in counts
    requires Distinct(order) && t in order
    ensures Total(Entries(order, counts[t := counts[t] + 1])) == Total(Entries(order, counts)) + 1
    decreases |order|
  {
    var n := |order| - 1;
    var before, after := Entries(order, counts), Entries(order, counts[t := counts[t] + 1]);
    assert before[..n] == Entries(order[..n], counts);
    assert after[..n] == Entries(order[..n], counts[t := counts[t] + 1]);
    if order[n] == t {
      assert t !in order[..n];
      TotalFresh(order[..n], counts, t, counts[t] + 1);
    } else {
      TotalBump(order[..n], counts, t);
    }
  }

  /** Setting the count of a key not listed leaves the total alone. */
  lemma {:induction false} TotalFresh(order: seq<string>, counts: map<string, nat>, t: string, v: nat)
    requires forall k :: 0 <= k < |order| ==> order[k] in counts
    requires t !in order
    ensures Total(Entries(order, counts[t := v])) == Total(Entries(order, counts))
    decreases |order|
  {
    if |order| > 0 {
      var n := |order| - 1;
      assert Entries(order, counts)[..n] == Entries(order[..n], counts);
      assert Entries(order, counts[t := v])[..n] == Entries(order[..n], counts[t := v]);
      TotalFresh(order[..n], counts, t, v);
    }
  }

  /** `counts` and `order` record the types of the first `i` blocks: each type once, in the
      order it first occurs, with its number of blocks. */
  ghost predicate Counted(blocks: seq<SearchBlockData>, i: nat, order: seq<string>, counts: map<string, nat>)
    requires i <= |blocks|
  {
    && Distinct(order)
    && (forall t :: t in counts <==> t in order)
    && (forall t :: t in counts ==> counts[t] >= 1 && counts[t] == TypeCount(blocks[..i], t))
    && (forall t :: t !in counts ==> TypeCount(blocks[..i], t) == 0)
    && Total(Entries(order, counts)) == i
  }

  /** Counting one more block adds one to the count of its type only. */
  lemma TypeCountStep(blocks: seq<SearchBlockData>, i: nat)
    requires i < |blocks|
    ensures forall u :: TypeCount(blocks[..i + 1], u) == TypeCount(blocks[..i], u) + (if u == blocks[i].blockType then 1 else 0)
  {
    assert blocks[..i + 1][..i] == blocks[..i];
  }

  /** One step of the `forEach` for a type already counted. */
  lemma CountSeen(blocks: seq<SearchBlockData>, i: nat, order: seq<string>, counts: map<string, nat>)
    requires i < |blocks| && Counted(blocks, i, order, counts) && blocks[i].blockType in counts
    ensures var t := blocks[i].blockType; Counted(blocks, i + 1, order, counts[t := counts[t] + 1])
  {
    TypeCountStep(blocks, i);
    TotalBump(order, counts, blocks[i].blockType);
  }

  /** One step of the `forEach` for a type seen the first time. */
  lemma CountNew(blocks: seq<SearchBlockData>, i: nat, order: seq<string>, counts: map<string, nat>)
    requires i < |blocks| && Counted(blocks, i, order, counts) && blocks[i].blockType !in counts
    ensures var t := blocks[i].blockType; Counted(blocks, i + 1, order + [t], counts[t := 1])
  {
    var t := blocks[i].blockType;
    TypeCountStep(blocks, i);
    TotalFresh(order, counts, t, 1);
    assert Entries(order + [t], counts[t := 1])[..|order|] == Entries(order, counts[t := 1]);
  }

  /** `getBlockTypeSummary`: one `(type, count)` pair per block type present, in the order the
      types first occur (the order `Object.entries` lists such keys). */
  method BlockTypeSummary(blocks: seq<SearchBlockData>) returns (summary: seq<TypeTally>)
    ensures Distinct(Keys(summary))
    ensures forall j :: 0 <= j < |summary| ==> summary[j].count >= 1 && summary[j].count == TypeCount(blocks, summary[j].blockType)
    ensures forall i :: 0 <= i < |blocks| ==> blocks[i].blockType in Keys(summary)
    ensures Total(summary) == |blocks|
    ensures forall j, k :: 0 <= j < k < |summary| ==>
      FirstIndex(blocks, summary[j].blockType) < FirstIndex(blocks, summary[k].blockType)
  {
    var typeCounts: map<string, nat> := map[];
    var order: seq<string> := [];
    var i := 0;
    while i < |blocks|
      invariant 0 <= i <= |blocks|
      invariant Counted(blocks, i, order, typeCounts) && FirstOrder(blocks, i, order)
    {
      order, typeCounts := CountBlock(blocks, i, order, typeCounts);
      i := i + 1;
    }
    assert blocks[..i] == blocks;
    summary := Entries(order, typeCounts);
    assert Keys(summary) == order;
    forall k | 0 <= k < |blocks| ensures blocks[k].blockType in Keys(summary) {
      TypeCountPositive(blocks, k);
    }
  }

  /** `order` lists types in the order they first occur, each first met among the first `i`
      blocks. */
  ghost predicate FirstOrder(blocks: seq<SearchBlockData>, i: nat, order: seq<string>) {
    && (forall j :: 0 <= j < |order| ==> FirstIndex(blocks, order[j]) < i)
    && (forall j, k :: 0 <= j < k < |order| ==> FirstIndex(blocks, order[j]) < FirstIndex(blocks, order[k]))
  }

  /** One step of the `forEach`: the type of block `i` is counted, and listed when it is new. */
  method CountBlock(blocks: seq<SearchBlockData>, i: nat, order0: seq<string>, counts0: map<string, nat>)
    returns (order: seq<string>, counts: map<string, nat>)
    requires i < |blocks| && Counted(blocks, i, order0, counts0) && FirstOrder(blocks, i, order0)
    ensures Counted(blocks, i + 1, order, counts) && FirstOrder(blocks, i + 1, order)
  {
    var t := blocks[i].blockType;
    if t in counts0 {
      CountSeen(blocks, i, order0, counts0);
      order, counts := order0, counts0[t := counts0[t] + 1];
    } else {
      FirstIndexIsNew(blocks, i);
      CountNew(blocks, i, order0, counts0);
      order, counts := order0 + [t], counts0[t := 1];
    }
  }

  /** A block whose type none of the blocks before it has is the first of its type. */
  lemma FirstIndexIsNew(blocks: seq<SearchBlockData>, i: nat)
    requires i < |blocks| && TypeCount(blocks[..i], blocks[i].blockType) == 0
    ensures FirstIndex(blocks, blocks[i].blockType) == i
  {
    var t := blocks[i].blockType;
    var n := FirstIndex(blocks, t);
    if n < i {
      assert blocks[..i][n] == blocks[n];
      TypeCountPositive(blocks[..i], n);
    }
  }

  /** A type some block has is counted at least once. */
  lemma {:induction false} TypeCountPositive(blocks: seq<SearchBlockData>, k: nat)
    requires k < |blocks|
    ensures TypeCount(blocks, blocks[k].blockType) >= 1
    decreases |blocks|
  {
    if k < |blocks| - 1 {
      assert blocks[..|blocks| - 1][k] == blocks[k];
      TypeCountPositive(blocks[..|blocks| - 1], k);
    }
  }

  const MsPerDay := 86400000

  /** The age buckets `formatLastUsed` distinguishes. */
  datatype Age = Never | Today | Yesterday | DaysAgo(days: nat) | WeeksAgo(weeks: nat) | MonthsAgo(months: nat)

  /** Whole days between the two instants, future or past alike:
      `Math.floor(Math.abs(now - lastUsed) / 86400000)`. */
  function DiffDays(lastUsed: int, now: int): nat {
    (if now >= lastUsed then now - lastUsed else lastUsed - now) / MsPerDay
  }

  /** The if-chain of `formatLastUsed`; `new Date()` is the parameter `now`. */
  function AgeOf(lastUsed: Option<int>, now: int): (a: Age)
    ensures lastUsed.None? <==> a == Never
    ensures lastUsed.Some? ==> var d := DiffDays(lastUsed.value, now);
      && (a == Today <==> d == 0)
      && (a == Yesterday <==> d == 1)
      && (a.DaysAgo? <==> 2 <= d < 7) && (a.DaysAgo? ==> a.days == d)
      && (a.WeeksAgo? <==> 7 <= d < 30) && (a.WeeksAgo? ==> a.weeks == d / 7 && 1 <= a.weeks <= 4)
      && (a.MonthsAgo? <==> 30 <= d) && (a.MonthsAgo? ==> a.months == d / 30 && a.months >= 1)
  {
    if lastUsed.None? then Never
    else
      var diffDays := DiffDays(lastUsed.value, now);
      if diffDays == 0 then Today
      else if diffDays == 1 then Yesterday
      else if diffDays < 7 then DaysAgo(diffDays)
      else if diffDays < 30 then WeeksAgo(diffDays / 7)
      else MonthsAgo(diffDays / 30)
  }

  /** The text shown for each bucket. */
  function AgeText(a: Age): string {
    match a
    case Never => "Never used"
    case Today => "Today"
    case Yesterday => "Yesterday"
    case DaysAgo(n) => NatToString(n) + " days ago"
    case WeeksAgo(n) => NatToString(n) + " weeks ago"
    case MonthsAgo(n) => NatToString(n) + " months ago"
  }

  /** `formatLastUsed`. */
  function FormatLastUsed(lastUsed: Option<int>, now: int): string {
    AgeText(AgeOf(lastUsed, now))
  }

  /** An instant `delta` milliseconds in the future reads the same as one `delta` in the past. */
  lemma FormatLastUsedSymmetric(now: int, delta: int)
    ensures FormatLastUsed(Some(now + delta), now) == FormatLastUsed(Some(now - delta), now)
  {
    assert DiffDays(now + delta, now) == DiffDays(now - delta, now);
  }

  /** Different buckets never show the same text (the bucket can be read back from the text). */
  lemma AgeTextInjective(a: Age, b: Age)
    requires AgeText(a) == AgeText(b)
    ensures a == b
  {
    match a {
      case DaysAgo(n) => DigitsThenSuffix(n, " days ago", b);
      case WeeksAgo(n) => DigitsThenSuffix(n, " weeks ago", b);
      case MonthsAgo(n) => DigitsThenSuffix(n, " months ago", b);
      case _ =>
        AgeTextHead(a);
        AgeTextHead(b);
    }
  }

  /** Exactly the counted buckets show text that starts with a digit. */
  lemma AgeTextHead(a: Age)
    ensures var t := AgeText(a); (|t| > 0 && '0' <= t[0] <= '9') <==> a.DaysAgo? || a.WeeksAgo? || a.MonthsAgo?
  {
    match a {
      case DaysAgo(n) => assert AgeText(a)[0] == NatToString(n)[0];
      case WeeksAgo(n) => assert AgeText(a)[0] == NatToString(n)[0];
      case MonthsAgo(n) => assert AgeText(a)[0] == NatToString(n)[0];
      case _ =>
    }
  }

  /** Text made of the digits of `n` and a suffix starting with a space determines `n` and the
      suffix, among the bucket texts. */
  lemma DigitsThenSuffix(n: nat, suffix: string, b: Age)
    requires suffix in {" days ago", " weeks ago", " months ago"}
    requires AgeText(b) == NatToString(n) + suffix
    ensures suffix == " days ago" ==> b == DaysAgo(n)
    ensures suffix == " weeks ago" ==> b == WeeksAgo(n)
    ensures suffix == " months ago" ==> b == MonthsAgo(n)
  {
    var d := NatToString(n);
    assert '0' <= (d + suffix)[0] <= '9';
    match b {
      case DaysAgo(m) => SameDigits(n, m, suffix, " days ago");
      case WeeksAgo(m) => SameDigits(n, m, suffix, " weeks ago");
      case MonthsAgo(m) => SameDigits(n, m, suffix, " months ago");
      case _ =>
    }
  }

  /** Two digit strings followed by space-led suffixes are equal only when the numbers and the
      suffixes are. */
  lemma SameDigits(n: nat, m: nat, s1: string, s2: string)
    requires |s1| > 0 && |s2| > 0 && s1[0] == ' ' && s2[0] == ' '
    requires NatToString(n) + s1 == NatToString(m) + s2
    ensures n == m && s1 == s2
  {
    var a, b := NatToString(n), NatToString(m);
    SpaceAfterDigits(a, s1);
    SpaceAfterDigits(b, s2);
    assert a == (a + s1)[..|a|] == b;
    NatToStringInjective(n, m);
  }

  /** The position of the first space in `s`, or `|s|`. */
  function FirstSpace(s: string): (k: nat)
    ensures k <= |s|
  {
    if |s| == 0 || s[0] == ' ' then 0 else 1 + FirstSpace(s[1..])
  }

  /** In digits followed by a space-led suffix, the first space ends the digits. */
  lemma {:induction false} SpaceAfterDigits(d: string, s: string)
    requires forall i :: 0 <= i < |d| ==> '0' <= d[i] <= '9'
    requires |s| > 0 && s[0] == ' '
    ensures FirstSpace(d + s) == |d|
    decreases |d|
  {
    if |d| > 0 {
      assert (d + s)[1..] == d[1..] + s;
      SpaceAfterDigits(d[1..], s);
    }
  }

  /** Decimal printing is one-to-one. */
  lemma {:induction false} NatToStringInjective(n: nat, m: nat)
    requires NatToString(n) == NatToString(m)
    ensures n == m
    decreases n
  {
    var a, b := NatToString(n), NatToString(m);
    if n >= 10 && m >= 10 {
      assert a[..|a| - 1] == NatToString(n / 10);
      assert b[..|b| - 1] == NatToString(m / 10);
      NatToStringInjective(n / 10, m / 10);
      assert n % 10 == m % 10 by {
        assert a[|a| - 1] == b[|b| - 1];
      }
    }
  }
}
