/** The preset list's operations (`polymet-fainder/src/polymet/components/preset-manager.tsx`):
    save from the edit dialog, delete, run, and the search-and-tab filter. Each operation gives
    the list handed to `onPresetsChange`. */
module PresetManager {
  import opened Wrappers
  import opened Text
  import opened Seqs
  import opened PresetCard

  /** The edit dialog: the preset being edited and the text of its three inputs. */
  datatype Dialog = Dialog(editing: Option<PresetData>, name: string, description: string, tags: string, open: bool)

  /** `tags.split(",").map((tag) => tag.trim()).filter((tag) => tag)`. */
  function ParseTags(text: string): (tags: seq<string>)
    ensures forall i :: 0 <= i < |tags| ==> IsTrimmedWord(tags[i]) && ',' !in tags[i]
  {
    var parts := Split(text, ',');
    SplitPartsFree(text, ',');
    var trimmed := Map(parts, Trim);
    forall i | 0 <= i < |trimmed| ensures ',' !in trimmed[i] && (trimmed[i] != "" ==> IsTrimmedWord(trimmed[i])) {
      TrimInside(parts[i]);
    }
    var tags := Filter(trimmed, NonEmpty());
    assert forall i :: 0 <= i < |tags| ==> tags[i] in tags;
    tags
  }

  /** `.filter((tag) => tag)` on strings: keeps the non-empty ones. */
  function NonEmpty(): string -> bool {
    t => t != ""
  }

  /** Non-empty and free of white space at both ends. */
  predicate IsTrimmedWord(t: string) {
    |t| > 0 && !IsSpace(t[0]) && !IsSpace(t[|t| - 1])
  }

  /** Trimming only takes characters away. */
  lemma TrimInside(s: string)
    ensures forall c :: c in Trim(s) ==> c in s
  {
    var t := TrimStart(s);
    TrimStartSpec(s);
    TrimEndSpec(t);
  }

  /** Trimming a trimmed word, with or without one leading space, gives the word. */
  lemma TrimWord(t: string)
    requires IsTrimmedWord(t)
    ensures Trim(t) == t && Trim(" " + t) == t
  {
    assert TrimStart(t) == t;
    assert (" " + t)[1..] == t;
    assert TrimStart(" " + t) == t;
  }

  /** `tags.join(", ")`, as the edit dialog fills its tags input. */
  function JoinTags(tags: seq<string>): string
    decreases |tags|
  {
    if |tags| == 0 then "" else if |tags| == 1 then tags[0] else tags[0] + ", " + JoinTags(tags[1..])
  }

  /** The parts of `tags.join(", ")` when it is split at the commas. */
  function CommaParts(tags: seq<string>): seq<string>
    requires |tags| > 0
  {
    [tags[0]] + seq(|tags| - 1, i requires 0 <= i < |tags| - 1 => " " + tags[i + 1])
  }

  lemma {:induction false} JoinTagsParts(tags: seq<string>)
    requires |tags| > 0
    ensures JoinTags(tags) == Join(CommaParts(tags), ',')
    decreases |tags|
  {
    if |tags| > 1 {
      JoinTagsParts(tags[1..]);
      var rest := CommaParts(tags[1..]);
      var parts := CommaParts(tags);
      assert parts[1..] == [" " + rest[0]] + rest[1..];
      JoinSpaceFirst(rest);
      assert Join(parts, ',') == tags[0] + [','] + Join(parts[1..], ',');
    }
  }

  /** A space prefixed to the first part is a space prefixed to the join. */
  lemma {:induction false} JoinSpaceFirst(parts: seq<string>)
    requires |parts| > 0
    ensures Join([" " + parts[0]] + parts[1..], ',') == " " + Join(parts, ',')
  {
    var q := [" " + parts[0]] + parts[1..];
    if |parts| > 1 {
      assert q[1..] == parts[1..];
      var rest := Join(parts[1..], ',');
      assert Join(q, ',') == (" " + parts[0]) + [','] + rest;
      assert Join(parts, ',') == parts[0] + [','] + rest;
    } else {
      assert q == [" " + parts[0]];
    }
  }

  /** Splitting `tags.join(", ")` at the commas gives the tags, each after the first with its
      leading space. */
  lemma SplitJoinTags(tags: seq<string>)
    requires |tags| > 0
    requires forall i :: 0 <= i < |tags| ==> ',' !in tags[i]
    ensures Split(JoinTags(tags), ',') == CommaParts(tags)
  {
    var parts := CommaParts(tags);
    JoinTagsParts(tags);
    forall k | 0 <= k < |parts| ensures ',' !in parts[k] {
      if k > 0 {
        assert parts[k] == " " + tags[k];
      }
    }
    SplitJoin(parts, ',');
  }

  /** Trimming those parts gives the tags back. */
  lemma TrimCommaParts(tags: seq<string>)
    requires |tags| > 0
    requires forall i :: 0 <= i < |tags| ==> IsTrimmedWord(tags[i])
    ensures Map(CommaParts(tags), Trim) == tags
  {
    var parts := CommaParts(tags);
    var trimmed := Map(parts, Trim);
    forall i | 0 <= i < |tags| ensures trimmed[i] == tags[i] {
      TrimWord(tags[i]);
      if i > 0 {
        assert parts[i] == " " + tags[i];
      }
    }
  }

  /** Tags that are trimmed words without commas survive the round trip through the dialog's
      tags input: joined with `", "` and parsed back, they are the same list. */
  lemma ParseJoinTags(tags: seq<string>)
    requires forall i :: 0 <= i < |tags| ==> IsTrimmedWord(tags[i]) && ',' !in tags[i]
    ensures ParseTags(JoinTags(tags)) == tags
  {
    ParseTagsParts(JoinTags(tags));
    if |tags| == 0 {
      assert Split("", ',') == [""];
      assert Map([""], Trim) == [""];
    } else {
      SplitJoinTags(tags);
      TrimCommaParts(tags);
      FilterAll(tags, NonEmpty());
    }
  }

  /** The parse is the trimmed comma parts with the empty ones dropped. */
  lemma ParseTagsParts(text: string)
    ensures ParseTags(text) == Filter(Map(Split(text, ','), Trim), NonEmpty())
  {
  }

  /** The preset the dialog saves: the edited preset with the normalised inputs. */
  function Normalized(p: PresetData, name: string, description: string, tags: string): PresetData {
    var d := Trim(description);
    p.(name := Trim(name), description := if d != "" then Some(d) else None, tags := Some(ParseTags(tags)))
  }

  /** `isNew ? [...presets, updated] : presets.map(...)`. */
  function Upsert(presets: seq<PresetData>, updated: PresetData): (r: seq<PresetData>)
    ensures (forall i :: 0 <= i < |presets| ==> presets[i].id != updated.id) ==> r == presets + [updated]
    ensures (exists i :: 0 <= i < |presets| && presets[i].id == updated.id) ==>
      && |r| == |presets|
      && forall i :: 0 <= i < |presets| ==> r[i] == if presets[i].id == updated.id then updated else presets[i]
  {
    var isNew := !Seqs.Some(presets, (p: PresetData) => p.id == updated.id);
    if isNew then presets + [updated]
    else Map(presets, (p: PresetData) => if p.id == updated.id then updated else p)
  }

  /** `handleSavePreset`: nothing happens without a preset being edited or with a blank name;
      otherwise the normalised preset is upserted and the dialog closes. */
  function SavePreset(presets: seq<PresetData>, dialog: Dialog): (r: (Option<seq<PresetData>>, Dialog))
    ensures dialog.editing.None? || IsBlank(dialog.name) <==> r.0.None?
    ensures r.0.None? ==> r.1 == dialog
    ensures r.0.Some? ==>
      && r.0.value == Upsert(presets, Normalized(dialog.editing.value, dialog.name, dialog.description, dialog.tags))
      && !r.1.open && r.1.editing.None?
  {
    if dialog.editing.None? || Trim(dialog.name) == "" then (None, dialog)
    else
      var updated := Normalized(dialog.editing.value, dialog.name, dialog.description, dialog.tags);
      (Some(Upsert(presets, updated)), dialog.(open := false, editing := None))
  }

  /** What a successful save stores: a trimmed non-blank name, a description that is absent
      exactly when its input was blank, and trimmed non-empty tags without commas. */
  lemma SavedPresetShape(p: PresetData, name: string, description: string, tags: string)
    requires !IsBlank(name)
    ensures var q := Normalized(p, name, description, tags);
      && q.id == p.id && q.blocks == p.blocks && q.lastUsed == p.lastUsed
      && IsTrimmedWord(q.name)
      && (q.description.None? <==> IsBlank(description))
      && (q.description.Some? ==> IsTrimmedWord(q.description.value))
      && q.tags.Some? && forall i :: 0 <= i < |q.tags.value| ==> IsTrimmedWord(q.tags.value[i])
  {
  }

  /** `handleCreatePreset`: the dialog opened on a blank preset under the id the caller generated,
      with its three inputs cleared. */
  function CreateDialog(id: string): Dialog {
    Dialog(Some(PresetData(id, "", Some(""), [], None, Some([]))), "", "", "", true)
  }

  /** Saving a freshly created preset needs a name; with one, and with an id no preset carries,
      it appends a preset with no blocks, never used, holding the normalised inputs, and keeps
      the other presets as they were. */
  lemma CreateSaveAppends(presets: seq<PresetData>, id: string, name: string, description: string, tags: string)
    requires forall i :: 0 <= i < |presets| ==> presets[i].id != id
    ensures var r := SavePreset(presets, CreateDialog(id).(name := name, description := description, tags := tags));
      && (IsBlank(name) <==> r.0.None?)
      && (r.0.Some? ==>
            && |r.0.value| == |presets| + 1 && r.0.value[..|presets|] == presets
            && var q := r.0.value[|presets|];
               q.id == id && q.blocks == [] && q.lastUsed.None? && q.name == Trim(name)
               && (q.description.None? <==> IsBlank(description)) && q.tags == Some(ParseTags(tags)))
  {
  }

  /** `handleEditPreset`: the dialog filled from a preset. */
  function EditDialog(p: PresetData): Dialog {
    Dialog(Some(p), p.name, p.description.GetOr(""), JoinTags(p.tags.GetOr([])), true)
  }

  /** Opening a saved preset in the dialog and saving it untouched stores the same preset, in
      place. */
  lemma EditSaveRoundTrip(presets: seq<PresetData>, j: nat)
    requires j < |presets|
    requires var p := presets[j];
      && IsTrimmedWord(p.name)
      && (p.description.Some? ==> IsTrimmedWord(p.description.value))
      && p.tags.Some? && forall i :: 0 <= i < |p.tags.value| ==> IsTrimmedWord(p.tags.value[i]) && ',' !in p.tags.value[i]
    ensures var p := presets[j];
      var r := SavePreset(presets, EditDialog(p));
      && r.0.Some? && |r.0.value| == |presets|
      && forall i :: 0 <= i < |presets| ==> r.0.value[i] == if presets[i].id == p.id then p else presets[i]
  {
    var p := presets[j];
    TrimWord(p.name);
    if p.description.Some? {
      TrimWord(p.description.value);
    } else {
      assert Trim("") == "";
    }
    ParseJoinTags(p.tags.value);
    assert Normalized(p, p.name, p.description.GetOr(""), JoinTags(p.tags.GetOr([]))) == p;
  }

  /** `handleDeletePreset`. */
  function DeletePreset(presets: seq<PresetData>, id: string): seq<PresetData> {
    Filter(presets, (p: PresetData) => p.id != id)
  }

  /** Deleting drops every preset with the id and keeps the others in order. */
  lemma DeletePresetSpec(presets: seq<PresetData>, id: string)
    ensures forall p :: p in DeletePreset(presets, id) <==> p in presets && p.id != id
    ensures IsSubsequence(DeletePreset(presets, id), presets)
    ensures forall p :: multiset(DeletePreset(presets, id))[p] == if p.id != id then multiset(presets)[p] else 0
  {
    forall p ensures p in DeletePreset(presets, id) <==> p in presets && p.id != id {
      FilterMember(presets, (p: PresetData) => p.id != id, p);
    }
    FilterIsSubsequence(presets, (p: PresetData) => p.id != id);
    FilterMultiset(presets, (p: PresetData) => p.id != id);
  }

  /** `handleRunPreset`: the run preset gets `lastUsed := now` in the list, and the preset handed to
      `onPresetRun` is that updated one. */
  function RunPreset(presets: seq<PresetData>, preset: PresetData, now: int): (r: (seq<PresetData>, PresetData))
    ensures r.1 == preset.(lastUsed := Some(now))
    ensures |r.0| == |presets|
    ensures forall i :: 0 <= i < |presets| ==> r.0[i] == if presets[i].id == preset.id then r.1 else presets[i]
  {
    var updated := preset.(lastUsed := Some(now));
    (Map(presets, (p: PresetData) => if p.id == preset.id then updated else p), updated)
  }

  /** `matchesSearch`. */
  predicate MatchesSearch(p: PresetData, term: string) {
    var t := ToLower(term);
    || term == ""
    || Contains(ToLower(p.name), t)
    || (p.description.Some? && p.description.value != "" && Contains(ToLower(p.description.value), t))
    || (p.tags.Some? && exists i :: 0 <= i < |p.tags.value| && Contains(ToLower(p.tags.value[i]), t))
  }

  const WeekMs := 7 * 24 * 60 * 60 * 1000

  /** The tab test of `filteredPresets`; `new Date()` is the parameter `now`. */
  predicate InTab(p: PresetData, tab: string, term: string, now: int) {
    if tab == "all" then MatchesSearch(p, term)
    else if tab == "recent" then MatchesSearch(p, term) && p.lastUsed.Some? && now - p.lastUsed.value < WeekMs
    else false
  }

  /** Used within the last seven days, strictly. */
  function RecentTest(now: int): PresetData -> bool {
    (p: PresetData) => p.lastUsed.Some? && now - p.lastUsed.value < WeekMs
  }

  function TabTest(tab: string, term: string, now: int): PresetData -> bool {
    (p: PresetData) => InTab(p, tab, term, now)
  }

  function FilteredPresets(presets: seq<PresetData>, tab: string, term: string, now: int): seq<PresetData> {
    Filter(presets, TabTest(tab, term, now))
  }

  /** The `all` tab with no search term lists every preset, and a tab other than `all` and
      `recent` lists none. */
  lemma FilteredPresetsTabs(presets: seq<PresetData>, tab: string, term: string, now: int)
    ensures FilteredPresets(presets, "all", "", now) == presets
    ensures tab != "all" && tab != "recent" ==> FilteredPresets(presets, tab, term, now) == []
  {
    FilterAll(presets, TabTest("all", "", now));
    if tab != "all" && tab != "recent" {
      NoneKept(presets, TabTest(tab, term, now));
    }
  }

  /** The `recent` tab lists the presets of the `all` tab that ran within the last seven days,
      in the same order. */
  lemma FilteredRecent(presets: seq<PresetData>, term: string, now: int)
    ensures FilteredPresets(presets, "recent", term, now)
      == Filter(FilteredPresets(presets, "all", term, now), RecentTest(now))
  {
    var recent := RecentTest(now);
    var inAll := TabTest("all", term, now);
    FilterFilter(presets, inAll, recent);
    assert "recent" != "all";
    FilterExt(presets, And(inAll, recent), TabTest("recent", term, now));
  }

  /** A preset is listed exactly when it passes the tab's test. */
  lemma FilteredMember(presets: seq<PresetData>, tab: string, term: string, now: int)
    ensures forall p :: p in FilteredPresets(presets, tab, term, now) <==> p in presets && InTab(p, tab, term, now)
  {
    forall p ensures p in FilteredPresets(presets, tab, term, now) <==> p in presets && InTab(p, tab, term, now) {
      FilterMember(presets, TabTest(tab, term, now), p);
    }
  }

  /** A test no element passes keeps nothing. */
  lemma {:induction false} NoneKept(s: seq<PresetData>, p: PresetData -> bool)
    requires forall i :: 0 <= i < |s| ==> !p(s[i])
    ensures Filter(s, p) == []
    decreases |s|
  {
    if |s| > 0 {
      NoneKept(s[1..], p);
    }
  }
}
