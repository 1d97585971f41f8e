/** The mock search of the home page (`polymet-fainder/src/polymet/pages/home-page.tsx`): the
    search, the filter panel and the block and preset runs each narrow the sample file list by a
    fixed pipeline of filters. The sample list is the parameter `files`; the simulated delays
    are left out. */
module HomePage {
  import opened Wrappers
  import opened Text
  import opened Seqs
  import opened ResultCard
  import opened FilterPanel
  import opened SearchBar
  import opened SearchBlock
  import opened PresetCard

  /** Case-insensitive `haystack.includes(needle)`. */
  predicate Mentions(haystack: string, needle: string) {
    Contains(ToLower(haystack), ToLower(needle))
  }

  /** The text search: the query occurs in the name, the path or the type. */
  predicate MatchesQuery(f: FileResult, query: string) {
    Mentions(f.name, query) || Mentions(f.path, query) || Mentions(f.fileType, query)
  }

  function QueryTest(query: string): FileResult -> bool {
    (f: FileResult) => MatchesQuery(f, query)
  }

  /** `handleSearch`: the files listed as results. */
  function HandleSearch(files: seq<FileResult>, query: string, options: SearchOptions): seq<FileResult> {
    if query != "" then Filter(files, QueryTest(query)) else files
  }

  /** An empty query lists every file in order; otherwise exactly the files matching the query
      are listed, in their order; the options play no part. */
  lemma HandleSearchSpec(files: seq<FileResult>, query: string, options: SearchOptions, other: SearchOptions)
    ensures query == "" ==> HandleSearch(files, query, options) == files
    ensures forall f :: f in HandleSearch(files, query, options) <==> f in files && (query == "" || MatchesQuery(f, query))
    ensures IsSubsequence(HandleSearch(files, query, options), files)
    ensures forall f :: multiset(HandleSearch(files, query, options))[f] ==
                        (if query == "" || MatchesQuery(f, query) then multiset(files)[f] else 0)
    ensures HandleSearch(files, query, options) == HandleSearch(files, query, other)
  {
    if query != "" {
      forall f ensures f in HandleSearch(files, query, options) <==> f in files && MatchesQuery(f, query) {
        FilterMember(files, QueryTest(query), f);
      }
      FilterIsSubsequence(files, QueryTest(query));
      FilterMultiset(files, QueryTest(query));
    } else {
      SubsequenceRefl(files);
    }
  }

  lemma {:induction false} SubsequenceRefl(s: seq<FileResult>)
    ensures IsSubsequence(s, s)
    decreases |s|
  {
    if |s| > 0 {
      SubsequenceRefl(s[1..]);
    }
  }

  // The four filters of `handleFilterChange`.

  predicate TypeMatches(f: FileResult, types: seq<string>) {
    exists i :: 0 <= i < |types| && Mentions(f.fileType, types[i])
  }

  /** The size filter applies unless the slider spans its whole range `[0, 1000]`. */
  predicate SizeFilterOn(range: (int, int)) {
    range.0 > 0 || range.1 < 1000
  }

  /** `fileSizeMB >= lo && fileSizeMB <= hi` with `fileSizeMB = size / (1024 * 1024)`. */
  predicate InSizeRange(f: FileResult, range: (int, int)) {
    var mb := f.size as real / 1048576.0;
    mb >= range.0 as real && mb <= range.1 as real
  }

  predicate DateFilterOn(d: DateRange) {
    d.from.Some? || d.to.Some?
  }

  predicate InDateRange(f: FileResult, d: DateRange) {
    !(d.from.Some? && f.modified < d.from.value) && !(d.to.Some? && f.modified > d.to.value)
  }

  predicate IsExcluded(f: FileResult, paths: seq<string>) {
    exists i :: 0 <= i < |paths| && Mentions(f.path, paths[i])
  }

  function TypeTest(types: seq<string>): FileResult -> bool {
    (f: FileResult) => TypeMatches(f, types)
  }

  function SizeTest(range: (int, int)): FileResult -> bool {
    (f: FileResult) => InSizeRange(f, range)
  }

  function DateTest(d: DateRange): FileResult -> bool {
    (f: FileResult) => InDateRange(f, d)
  }

  function KeepTest(paths: seq<string>): FileResult -> bool {
    (f: FileResult) => !IsExcluded(f, paths)
  }

  /** `handleFilterChange`: the pipeline always starts from the full list. */
  function FilterResults(files: seq<FileResult>, filters: FilterOptions): seq<FileResult> {
    var r1 := if |filters.fileTypes| > 0 then Filter(files, TypeTest(filters.fileTypes)) else files;
    var r2 := if SizeFilterOn(filters.sizeRange) then Filter(r1, SizeTest(filters.sizeRange)) else r1;
    var r3 := if DateFilterOn(filters.dateRange) then Filter(r2, DateTest(filters.dateRange)) else r2;
    if |filters.excludePaths| > 0 then Filter(r3, KeepTest(filters.excludePaths)) else r3
  }

  /** What a file must satisfy to survive the filters. */
  predicate PassesFilters(f: FileResult, filters: FilterOptions) {
    && (|filters.fileTypes| == 0 || TypeMatches(f, filters.fileTypes))
    && (!SizeFilterOn(filters.sizeRange) || InSizeRange(f, filters.sizeRange))
    && InDateRange(f, filters.dateRange)
    && !IsExcluded(f, filters.excludePaths)
  }

  function PassTest(filters: FilterOptions): FileResult -> bool {
    (f: FileResult) => PassesFilters(f, filters)
  }

  /** The pipeline is one filter by the conjunction of the four tests. */
  lemma FilterResultsIsOneFilter(files: seq<FileResult>, filters: FilterOptions)
    ensures FilterResults(files, filters) == Filter(files, PassTest(filters))
  {
    var g1 := When(|filters.fileTypes| > 0, TypeTest(filters.fileTypes));
    var g2 := When(SizeFilterOn(filters.sizeRange), SizeTest(filters.sizeRange));
    var g3 := When(DateFilterOn(filters.dateRange), DateTest(filters.dateRange));
    var g4 := When(|filters.excludePaths| > 0, KeepTest(filters.excludePaths));
    FilterWhen(files, |filters.fileTypes| > 0, TypeTest(filters.fileTypes));
    var r1 := Filter(files, g1);
    FilterWhen(r1, SizeFilterOn(filters.sizeRange), SizeTest(filters.sizeRange));
    FilterFilter(files, g1, g2);
    var r2 := Filter(files, And(g1, g2));
    FilterWhen(r2, DateFilterOn(filters.dateRange), DateTest(filters.dateRange));
    FilterFilter(files, And(g1, g2), g3);
    var r3 := Filter(files, And(And(g1, g2), g3));
    FilterWhen(r3, |filters.excludePaths| > 0, KeepTest(filters.excludePaths));
    FilterFilter(files, And(And(g1, g2), g3), g4);
    forall i | 0 <= i < |files| ensures And(And(And(g1, g2), g3), g4)(files[i]) == PassTest(filters)(files[i]) {
      GuardsAsTest(files[i], filters);
    }
    FilterExt(files, And(And(And(g1, g2), g3), g4), PassTest(filters));
  }

  /** The four guarded tests of the pipeline hold together exactly when the file passes. */
  lemma GuardsAsTest(f: FileResult, filters: FilterOptions)
    ensures var g1 := When(|filters.fileTypes| > 0, TypeTest(filters.fileTypes));
      var g2 := When(SizeFilterOn(filters.sizeRange), SizeTest(filters.sizeRange));
      var g3 := When(DateFilterOn(filters.dateRange), DateTest(filters.dateRange));
      var g4 := When(|filters.excludePaths| > 0, KeepTest(filters.excludePaths));
      And(And(And(g1, g2), g3), g4)(f) == PassesFilters(f, filters)
  {
  }

  /** The filters keep exactly the passing files, in their order; no kept file's path mentions
      an excluded path; the size test is an exact comparison on bytes. */
  lemma FilterResultsSpec(files: seq<FileResult>, filters: FilterOptions)
    ensures forall f :: f in FilterResults(files, filters) <==> f in files && PassesFilters(f, filters)
    ensures IsSubsequence(FilterResults(files, filters), files)
    ensures forall f :: multiset(FilterResults(files, filters))[f] ==
                        (if PassesFilters(f, filters) then multiset(files)[f] else 0)
    ensures forall f, i :: f in FilterResults(files, filters) && 0 <= i < |filters.excludePaths| ==>
      !Mentions(f.path, filters.excludePaths[i])
    ensures forall f :: InSizeRange(f, filters.sizeRange) <==>
      filters.sizeRange.0 * 1048576 <= f.size <= filters.sizeRange.1 * 1048576
  {
    FilterResultsIsOneFilter(files, filters);
    forall f ensures f in FilterResults(files, filters) <==> f in files && PassesFilters(f, filters) {
      FilterMember(files, PassTest(filters), f);
    }
    FilterIsSubsequence(files, PassTest(filters));
    FilterMultiset(files, PassTest(filters));
    forall f ensures InSizeRange(f, filters.sizeRange) <==>
      filters.sizeRange.0 * 1048576 <= f.size <= filters.sizeRange.1 * 1048576
    {
      SizeInMegabytes(f.size, filters.sizeRange.0, filters.sizeRange.1);
    }
  }

  /** Dividing by 2^20 before comparing with whole megabytes is exact. */
  lemma SizeInMegabytes(size: int, lo: int, hi: int)
    ensures var mb := size as real / 1048576.0;
      (mb >= lo as real && mb <= hi as real) <==> lo * 1048576 <= size <= hi * 1048576
  {
    var mb := size as real / 1048576.0;
    assert size as real == mb * 1048576.0;
    assert (lo * 1048576) as real == lo as real * 1048576.0;
    assert (hi * 1048576) as real == hi as real * 1048576.0;
  }

  /** The filters the panel starts with (and resets to) keep every file. */
  lemma InitialFiltersKeepAll(files: seq<FileResult>)
    ensures FilterResults(files, InitialFilters) == files
  {
  }

  // The block search of `handlePresetRun` and `handleRunBlocks`.

  /** A text block matches the file name or one of the file's match snippets. */
  predicate TextBlockMatches(f: FileResult, b: SearchBlockData) {
    || Mentions(f.name, b.value)
    || (f.matches.Some? && exists i :: 0 <= i < |f.matches.value| && Mentions(f.matches.value[i], b.value))
  }

  predicate TypeBlockMatches(f: FileResult, b: SearchBlockData) {
    Mentions(f.fileType, b.value)
  }

  predicate PathBlockMatches(f: FileResult, b: SearchBlockData) {
    Mentions(f.path, b.value)
  }

  function OfType(t: string): SearchBlockData -> bool {
    (b: SearchBlockData) => b.blockType == t
  }

  /** `blocks.some(...)` of the group of that type. */
  predicate SomeTextBlock(f: FileResult, group: seq<SearchBlockData>) {
    exists i :: 0 <= i < |group| && TextBlockMatches(f, group[i])
  }

  predicate SomeTypeBlock(f: FileResult, group: seq<SearchBlockData>) {
    exists i :: 0 <= i < |group| && TypeBlockMatches(f, group[i])
  }

  predicate SomePathBlock(f: FileResult, group: seq<SearchBlockData>) {
    exists i :: 0 <= i < |group| && PathBlockMatches(f, group[i])
  }

  function TextTest(group: seq<SearchBlockData>): FileResult -> bool {
    (f: FileResult) => SomeTextBlock(f, group)
  }

  function TypeBlockTest(group: seq<SearchBlockData>): FileResult -> bool {
    (f: FileResult) => SomeTypeBlock(f, group)
  }

  function PathTest(group: seq<SearchBlockData>): FileResult -> bool {
    (f: FileResult) => SomePathBlock(f, group)
  }

  /** The block search: text, then file-type, then path blocks; a group applies only when it
      has blocks. */
  function BlockSearch(files: seq<FileResult>, blocks: seq<SearchBlockData>): seq<FileResult> {
    var textBlocks := Filter(blocks, OfType("text"));
    var r1 := if |textBlocks| > 0 then Filter(files, TextTest(textBlocks)) else files;
    var fileTypeBlocks := Filter(blocks, OfType("file-type"));
    var r2 := if |fileTypeBlocks| > 0 then Filter(r1, TypeBlockTest(fileTypeBlocks)) else r1;
    var pathBlocks := Filter(blocks, OfType("path"));
    if |pathBlocks| > 0 then Filter(r2, PathTest(pathBlocks)) else r2
  }

  /** `handlePresetRun` runs the preset's blocks. */
  function PresetRun(files: seq<FileResult>, preset: PresetData): seq<FileResult> {
    BlockSearch(files, preset.blocks)
  }

  /** `handleRunBlocks` runs the editor's blocks. */
  function RunBlocks(files: seq<FileResult>, searchBlocks: seq<SearchBlockData>): seq<FileResult> {
    BlockSearch(files, searchBlocks)
  }

  /** The block search in terms of the unfiltered block list: blocks of one type are alternatives,
      the three groups must all hold, a group with no blocks holds for every file. */
  predicate PassesBlocks(f: FileResult, blocks: seq<SearchBlockData>) {
    TextGroupHolds(f, blocks) && TypeGroupHolds(f, blocks) && PathGroupHolds(f, blocks)
  }

  predicate TextGroupHolds(f: FileResult, blocks: seq<SearchBlockData>) {
    (forall b :: b in blocks ==> b.blockType != "text")
    || exists b :: b in blocks && b.blockType == "text" && TextBlockMatches(f, b)
  }

  predicate TypeGroupHolds(f: FileResult, blocks: seq<SearchBlockData>) {
    (forall b :: b in blocks ==> b.blockType != "file-type")
    || exists b :: b in blocks && b.blockType == "file-type" && TypeBlockMatches(f, b)
  }

  predicate PathGroupHolds(f: FileResult, blocks: seq<SearchBlockData>) {
    (forall b :: b in blocks ==> b.blockType != "path")
    || exists b :: b in blocks && b.blockType == "path" && PathBlockMatches(f, b)
  }

  function BlocksTest(blocks: seq<SearchBlockData>): FileResult -> bool {
    (f: FileResult) => PassesBlocks(f, blocks)
  }

  /** The blocks of one type, as `filter` collects them. */
  lemma OfTypeMember(blocks: seq<SearchBlockData>, t: string)
    ensures forall b :: b in Filter(blocks, OfType(t)) <==> b in blocks && b.blockType == t
    ensures |Filter(blocks, OfType(t))| == 0 <==> forall b :: b in blocks ==> b.blockType != t
  {
    forall b ensures b in Filter(blocks, OfType(t)) <==> b in blocks && b.blockType == t {
      FilterMember(blocks, OfType(t), b);
    }
    var g := Filter(blocks, OfType(t));
    if |g| > 0 {
      assert g[0] in g;
    }
  }

  lemma TextGroup(f: FileResult, blocks: seq<SearchBlockData>)
    ensures var g := Filter(blocks, OfType("text")); When(|g| > 0, TextTest(g))(f) == TextGroupHolds(f, blocks)
  {
    OfTypeMember(blocks, "text");
  }

  lemma TypeGroup(f: FileResult, blocks: seq<SearchBlockData>)
    ensures var g := Filter(blocks, OfType("file-type")); When(|g| > 0, TypeBlockTest(g))(f) == TypeGroupHolds(f, blocks)
  {
    OfTypeMember(blocks, "file-type");
  }

  lemma PathGroup(f: FileResult, blocks: seq<SearchBlockData>)
    ensures var g := Filter(blocks, OfType("path")); When(|g| > 0, PathTest(g))(f) == PathGroupHolds(f, blocks)
  {
    OfTypeMember(blocks, "path");
  }

  /** The block search is one filter by `PassesBlocks`. */
  lemma BlockSearchIsOneFilter(files: seq<FileResult>, blocks: seq<SearchBlockData>)
    ensures BlockSearch(files, blocks) == Filter(files, BlocksTest(blocks))
  {
    var t1, t2, t3 := Filter(blocks, OfType("text")), Filter(blocks, OfType("file-type")), Filter(blocks, OfType("path"));
    var g1, g2, g3 := When(|t1| > 0, TextTest(t1)), When(|t2| > 0, TypeBlockTest(t2)), When(|t3| > 0, PathTest(t3));
    FilterWhen(files, |t1| > 0, TextTest(t1));
    var r1 := Filter(files, g1);
    FilterWhen(r1, |t2| > 0, TypeBlockTest(t2));
    FilterFilter(files, g1, g2);
    var r2 := Filter(files, And(g1, g2));
    FilterWhen(r2, |t3| > 0, PathTest(t3));
    FilterFilter(files, And(g1, g2), g3);
    forall i | 0 <= i < |files| ensures And(And(g1, g2), g3)(files[i]) == BlocksTest(blocks)(files[i]) {
      TextGroup(files[i], blocks);
      TypeGroup(files[i], blocks);
      PathGroup(files[i], blocks);
    }
    FilterExt(files, And(And(g1, g2), g3), BlocksTest(blocks));
  }

  /** The block search keeps exactly the files passing `PassesBlocks`, in their order, and with
      no blocks it keeps every file. */
  lemma BlockSearchSpec(files: seq<FileResult>, blocks: seq<SearchBlockData>)
    ensures forall f :: f in BlockSearch(files, blocks) <==> f in files && PassesBlocks(f, blocks)
    ensures IsSubsequence(BlockSearch(files, blocks), files)
    ensures forall f :: multiset(BlockSearch(files, blocks))[f] ==
                        (if PassesBlocks(f, blocks) then multiset(files)[f] else 0)
    ensures BlockSearch(files, []) == files
  {
    BlockSearchIsOneFilter(files, blocks);
    forall f ensures f in BlockSearch(files, blocks) <==> f in files && PassesBlocks(f, blocks) {
      FilterMember(files, BlocksTest(blocks), f);
    }
    FilterIsSubsequence(files, BlocksTest(blocks));
    FilterMultiset(files, BlocksTest(blocks));
  }

  /** Blocks of types other than text, file type and path make no difference. */
  lemma OtherBlocksIgnored(files: seq<FileResult>, blocks: seq<SearchBlockData>)
    ensures BlockSearch(files, blocks) == BlockSearch(files, Filter(blocks, KnownBlockType))
  {
    var known := Filter(blocks, KnownBlockType);
    BlockSearchIsOneFilter(files, blocks);
    BlockSearchIsOneFilter(files, known);
    forall b ensures b in known <==> b in blocks && KnownBlockType(b) {
      FilterMember(blocks, KnownBlockType, b);
    }
    assert forall i :: 0 <= i < |files| ==> PassesBlocks(files[i], blocks) == PassesBlocks(files[i], known);
    FilterExt(files, BlocksTest(blocks), BlocksTest(known));
  }

  /** The block types the search looks at. */
  predicate KnownBlockType(b: SearchBlockData) {
    b.blockType == "text" || b.blockType == "file-type" || b.blockType == "path"
  }
}
