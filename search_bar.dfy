/** The search bar's query and option state
    (`polymet-fainder/src/polymet/components/search-bar.tsx`). */
module SearchBar {

  datatype SearchOptions = SearchOptions(searchInCurrentDirectory: bool, caseSensitive: bool, useRegex: bool)

  /** `keyof SearchOptions`. */
  datatype OptionKey = SearchInCurrentDirectory | CaseSensitive | UseRegex

  function Get(o: SearchOptions, k: OptionKey): bool {
    match k
    case SearchInCurrentDirectory => o.searchInCurrentDirectory
    case CaseSensitive => o.caseSensitive
    case UseRegex => o.useRegex
  }

  datatype SearchBarState = SearchBarState(query: string, options: SearchOptions)

  /** The state a search bar starts in: the given initial query (`''` by default) and every
      option off. */
  function InitialState(initialQuery: string): (s: SearchBarState)
    ensures s.query == initialQuery
    ensures forall k :: !Get(s.options, k)
  {
    SearchBarState(initialQuery, SearchOptions(false, false, false))
  }

  /** `toggleOption`: `{ ...prev, [option]: !prev[option] }`. */
  function ToggleOption(o: SearchOptions, option: OptionKey): (r: SearchOptions)
    ensures Get(r, option) == !Get(o, option)
    ensures forall k :: k != option ==> Get(r, k) == Get(o, k)
  {
    match option
    case SearchInCurrentDirectory => o.(searchInCurrentDirectory := !o.searchInCurrentDirectory)
    case CaseSensitive => o.(caseSensitive := !o.caseSensitive)
    case UseRegex => o.(useRegex := !o.useRegex)
  }

  /** Options are determined by their three flags. */
  lemma OptionsExtensional(o: SearchOptions, p: SearchOptions)
    requires forall k :: Get(o, k) == Get(p, k)
    ensures o == p
  {
    assert Get(o, SearchInCurrentDirectory) == Get(p, SearchInCurrentDirectory);
    assert Get(o, CaseSensitive) == Get(p, CaseSensitive);
    assert Get(o, UseRegex) == Get(p, UseRegex);
  }

  /** Toggling the same option twice restores the options, and toggles of two options commute. */
  lemma ToggleLaws(o: SearchOptions, a: OptionKey, b: OptionKey)
    ensures ToggleOption(ToggleOption(o, a), a) == o
    ensures ToggleOption(ToggleOption(o, a), b) == ToggleOption(ToggleOption(o, b), a)
  {
    OptionsExtensional(ToggleOption(ToggleOption(o, a), a), o);
    OptionsExtensional(ToggleOption(ToggleOption(o, a), b), ToggleOption(ToggleOption(o, b), a));
  }

  /** What `handleSearch` hands to `onSearch`. */
  datatype SearchRequest = SearchRequest(query: string, options: SearchOptions)

  /** `handleSearch` passes on the current query and options as they are. */
  function HandleSearch(s: SearchBarState): (r: SearchRequest)
    ensures r.query == s.query && r.options == s.options
  {
    SearchRequest(s.query, s.options)
  }
}
