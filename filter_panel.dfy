/** The filter panel's state (`polymet-fainder/src/polymet/components/filter-panel.tsx`). Each
    handler gives the panel's next state and what it hands to `onFilterChange` (`None` when it
    does not call it). */
module FilterPanel {
  import opened Wrappers
  import opened Text
  import opened Seqs

  /** A date as milliseconds since the epoch; `undefined` is `None`. */
  datatype DateRange = DateRange(from: Option<int>, to: Option<int>)

  /** `FilterOptions`; `sizeRange` is the slider's pair of megabyte values. */
  datatype FilterOptions = FilterOptions(fileTypes: seq<string>, sizeRange: (int, int), dateRange: DateRange,
                                         includeHidden: bool, excludePaths: seq<string>)

  /** `Partial<FilterOptions>`. */
  datatype FilterPatch = FilterPatch(fileTypes: Option<seq<string>>, sizeRange: Option<(int, int)>,
                                     dateRange: Option<DateRange>, includeHidden: Option<bool>,
                                     excludePaths: Option<seq<string>>)

  const NoChange := FilterPatch(None, None, None, None, None)

  /** The panel's state: the filters and the text of the exclude-path input. */
  datatype PanelState = PanelState(filters: FilterOptions, excludePath: string)

  /** A handler's outcome: the next state and the filters handed to `onFilterChange`, if any. */
  datatype Step = Step(state: PanelState, emitted: Option<FilterOptions>)

  /** The filters the panel starts with. */
  const InitialFilters := FilterOptions([], (0, 1000), DateRange(None, None), false, [])

  const InitialState := PanelState(InitialFilters, "")

  /** `{ ...filters, ...patch }`. */
  function Merge(f: FilterOptions, patch: FilterPatch): FilterOptions {
    FilterOptions(patch.fileTypes.GetOr(f.fileTypes), patch.sizeRange.GetOr(f.sizeRange),
                  patch.dateRange.GetOr(f.dateRange), patch.includeHidden.GetOr(f.includeHidden),
                  patch.excludePaths.GetOr(f.excludePaths))
  }

  /** The empty patch changes nothing and a patch applied twice is applied once. */
  lemma MergeLaws(f: FilterOptions, patch: FilterPatch)
    ensures Merge(f, NoChange) == f
    ensures Merge(Merge(f, patch), patch) == Merge(f, patch)
  {
  }

  /** `handleFilterChange`: the merged filters become the state and are handed on. */
  function HandleFilterChange(s: PanelState, patch: FilterPatch): (r: Step)
    ensures r.emitted == Some(r.state.filters)
    ensures r.state.excludePath == s.excludePath
    ensures patch.fileTypes.Some? ==> r.state.filters.fileTypes == patch.fileTypes.value
    ensures patch.fileTypes.None? ==> r.state.filters.fileTypes == s.filters.fileTypes
    ensures patch.sizeRange.Some? ==> r.state.filters.sizeRange == patch.sizeRange.value
    ensures patch.sizeRange.None? ==> r.state.filters.sizeRange == s.filters.sizeRange
    ensures patch.dateRange.Some? ==> r.state.filters.dateRange == patch.dateRange.value
    ensures patch.dateRange.None? ==> r.state.filters.dateRange == s.filters.dateRange
    ensures patch.includeHidden.Some? ==> r.state.filters.includeHidden == patch.includeHidden.value
    ensures patch.includeHidden.None? ==> r.state.filters.includeHidden == s.filters.includeHidden
    ensures patch.excludePaths.Some? ==> r.state.filters.excludePaths == patch.excludePaths.value
    ensures patch.excludePaths.None? ==> r.state.filters.excludePaths == s.filters.excludePaths
  {
    var merged := Merge(s.filters, patch);
    Step(s.(filters := merged), Some(merged))
  }

  /** `addExcludePath`: a blank input does nothing; otherwise the trimmed path is appended and
      the input is cleared. */
  function AddExcludePath(s: PanelState): (r: Step)
    ensures IsBlank(s.excludePath) ==> r == Step(s, None)
    ensures !IsBlank(s.excludePath) ==>
      && r.emitted == Some(r.state.filters)
      && r.state == PanelState(s.filters.(excludePaths := s.filters.excludePaths + [Trim(s.excludePath)]), "")
      && var added := r.state.filters.excludePaths[|s.filters.excludePaths|];
         added != "" && !IsSpace(added[0]) && !IsSpace(added[|added| - 1])
  {
    var path := Trim(s.excludePath);
    if path != "" then
      var step := HandleFilterChange(s, NoChange.(excludePaths := Some(s.filters.excludePaths + [path])));
      Step(step.state.(excludePath := ""), step.emitted)
    else Step(s, None)
  }

  /** `removeExcludePath`. */
  function RemoveExcludePath(s: PanelState, path: string): (r: Step)
    ensures r.emitted == Some(r.state.filters)
    ensures r.state == s.(filters := s.filters.(excludePaths := Filter(s.filters.excludePaths, (p: string) => p != path)))
  {
    HandleFilterChange(s, NoChange.(excludePaths := Some(Filter(s.filters.excludePaths, (p: string) => p != path))))
  }

  /** Removing a path deletes every copy of it and keeps the other paths in order. */
  lemma RemoveExcludePathSpec(s: PanelState, path: string)
    ensures var kept := RemoveExcludePath(s, path).state.filters.excludePaths;
      && (forall p :: p in kept <==> p in s.filters.excludePaths && p != path)
      && IsSubsequence(kept, s.filters.excludePaths)
      && (forall p :: multiset(kept)[p] == if p != path then multiset(s.filters.excludePaths)[p] else 0)
  {
    var keep := (p: string) => p != path;
    forall p ensures p in Filter(s.filters.excludePaths, keep) <==> p in s.filters.excludePaths && p != path {
      FilterMember(s.filters.excludePaths, keep, p);
    }
    FilterIsSubsequence(s.filters.excludePaths, keep);
    FilterMultiset(s.filters.excludePaths, keep);
  }

  /** The file-type select: `all` means no type constraint, anything else that one type. */
  function SelectFileType(s: PanelState, value: string): (r: Step)
    ensures r.emitted == Some(r.state.filters)
    ensures r.state.filters == s.filters.(fileTypes := if value == "all" then [] else [value])
  {
    HandleFilterChange(s, NoChange.(fileTypes := Some(if value == "all" then [] else [value])))
  }

  /** Picking (or clearing) the `from` date keeps the `to` date. */
  function SetFrom(s: PanelState, date: Option<int>): (r: Step)
    ensures r.emitted == Some(r.state.filters)
    ensures r.state.filters == s.filters.(dateRange := DateRange(date, s.filters.dateRange.to))
  {
    HandleFilterChange(s, NoChange.(dateRange := Some(s.filters.dateRange.(from := date))))
  }

  /** Picking (or clearing) the `to` date keeps the `from` date. */
  function SetTo(s: PanelState, date: Option<int>): (r: Step)
    ensures r.emitted == Some(r.state.filters)
    ensures r.state.filters == s.filters.(dateRange := DateRange(s.filters.dateRange.from, date))
  {
    HandleFilterChange(s, NoChange.(dateRange := Some(s.filters.dateRange.(to := date))))
  }

  /** The size slider and the hidden-files switch. */
  function SetSizeRange(s: PanelState, lo: int, hi: int): (r: Step)
    ensures r.emitted == Some(r.state.filters)
    ensures r.state.filters == s.filters.(sizeRange := (lo, hi))
  {
    HandleFilterChange(s, NoChange.(sizeRange := Some((lo, hi))))
  }

  function SetIncludeHidden(s: PanelState, checked: bool): (r: Step)
    ensures r.emitted == Some(r.state.filters)
    ensures r.state.filters == s.filters.(includeHidden := checked)
  {
    HandleFilterChange(s, NoChange.(includeHidden := Some(checked)))
  }

  /** The Reset button: the filters written out afresh, handed on as well; the exclude-path input
      keeps its text. */
  function Reset(s: PanelState): (r: Step)
    ensures r.state == s.(filters := InitialFilters) && r.emitted == Some(InitialFilters)
  {
    var cleared := FilterOptions([], (0, 1000), DateRange(None, None), false, []);
    Step(s.(filters := cleared), Some(cleared))
  }
}
