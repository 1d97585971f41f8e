# fAInder core logic in Dafny

fAInder is a desktop file finder. It has two parts:

- an Electron host (`electron-app/src/main.ts`) that lists directories, finds the React bundle, keeps the preferences and window state, and answers the renderer's requests;
- a React front end (`polymet-fainder/…`, plus the stand-alone search page `project-1749984823338/app/page.tsx`) whose components keep lists and state: search blocks, presets, filters, sorted and paged results, and the theme.

The repository also ships a markdown clean-up script, `fix-markdown.js`.

This project models the deterministic core of all three and proves what each piece promises:

- **`Host`**: the host's directory listing, React-app path search, preferences merge, maximize toggle and directory dialog. The file system, `path`, `existsSync` and the dialog are parameters. The host's mutable state is the class `FAInderApp`.
- **`Renderer`** and **`ElectronUtils`**: the two sets of filename helpers. **`ExtensionCompare`** proves where their two extension functions agree and where they do not.
- **`FixMarkdown`**: the seven passes of `fixMarkdownContent` as imperative loops over the line list. Each turn of a loop is a method proved against a function describing that turn. Passes 1-3 insert only empty lines, one per fix. After pass 1 every heading has an acceptable line or the edge of the text on both sides (MD022). After pass 2 every list item does too (MD032), and the headings stay spaced. Pass 3 keeps both kinds spaced and terminates by a measure counting fences still to be spaced. Passes 4-6 change lines only as the script says, with exactly one fix per changed line, in line order. The whole fixer is proved to be passes 4-7 applied to such a spaced text. Its result ends in a newline, and it is the input itself when no fix was made.
- **UI modules**, one per component: `SearchBlock`, `BlockEditor`, `SearchPage`, `FilterPanel`, `HomePage`, `PresetCard`, `PresetManager`, `ResultCard`, `ResultsList`, `SearchBar`, `MainLayout`. Each React handler becomes the function from the old state (or list) to the new one. Where the source loops or mutates, the model uses a method:
  - the type count of a preset card;
  - the results sort, an insertion sort on a fresh array;
  - the drag reorder;
  - the theme effects (a class).
- **Helper modules** `Wrappers`, `Text` and `Seqs`: `Option`/`Result`, the JavaScript string operations used (ASCII lower-casing, `\s`, `trim`, `split`/`join` on one character, `includes`, `lastIndexOf`), and `filter`/`map`/`some` over sequences.

JavaScript semantics are written out where they matter:

- `{ ...a, ...b }` becomes a merge of `Option` fields;
- `splice` becomes insert and remove;
- `Array.prototype.slice` clamps its indices;
- `Math.ceil(n / 12)` is integer arithmetic;
- byte-size thresholds are exact comparisons, because dividing by powers of two is exact;
- `localeCompare` is lexicographic order on character codes, proved to be a total order;
- the sort's comparator is used as the source's switch defines it, with unknown keys comparing as equal.

## Model

| member | source | states |
|---|---|---|
| Host.KeptPartition | electron-app/src/main.ts:487-526 | every directory entry is either kept or warned about, never both; an entry is kept exactly when its `stat` succeeds; the kept entries keep `readdir` order |
| Host.KeptAll | electron-app/src/main.ts:487-526 | when every `stat` succeeds, every entry is kept and nothing is warned about |
| Host.ReadDirectory | electron-app/src/main.ts:482-533 | a failing `readdir` rethrows its error and lists nothing; otherwise one record per entry whose `stat` succeeds, in order, each with the joined and resolved path, `isDirectory` from the dirent, size and times from `stat`, the extension (empty for non-files), and each permission from its own `access` check; a warning for each other entry |
| Host.DetermineReactAppPath | electron-app/src/main.ts:96-126 | the dev-server URL in development; otherwise the first of the four candidates that `existsSync` confirms (a throwing check counts as absent), or the first candidate when none is confirmed |
| Host.MergeLaws | electron-app/src/main.ts:426-428 | the preferences merge is shallow: the empty patch changes nothing, a patch applied twice is applied once, two patches in a row are their combination, and supplied fields override while absent ones stay |
| Host.ToggleMaximized | electron-app/src/main.ts:409-415 | a window flips its maximized flag and keeps its full-screen flag; without a window nothing happens |
| Host.ToggleMaximizedTwice | electron-app/src/main.ts:409-415 | two MAXIMIZE requests restore the window |
| Host.FAInderApp.constructor | electron-app/src/main.ts:63-80 | the host starts with the default preferences and the 1200x800, non-maximized window state |
| Host.FAInderApp.SetPreferences | electron-app/src/main.ts:426-428 | the preferences become the shallow merge of the old ones with the patch; window state and window are untouched |
| Host.FAInderApp.Maximize | electron-app/src/main.ts:409-415 | the window is toggled as `ToggleMaximized` says; nothing else changes |
| Host.FAInderApp.OnMaximize | electron-app/src/main.ts:241-243 | the `maximize` event sets the tracked `isMaximized` and changes nothing else |
| Host.FAInderApp.OnUnmaximize | electron-app/src/main.ts:245-247 | the `unmaximize` event clears the tracked `isMaximized` and changes nothing else |
| Host.FAInderApp.SelectDirectory | electron-app/src/main.ts:545-554 | no path without a window, when the dialog is cancelled, or with an empty selection; otherwise the first selected path |
| Renderer.HasInvalidCharIff | electron-app/src/renderer.ts:154-155 | the character-class test holds exactly when some character of the path is one of `< > : " \| ? *` |
| Renderer.IsValidPath | electron-app/src/renderer.ts:150-156 | a path is valid exactly when it is non-empty and holds none of the rejected characters |
| Renderer.GetFileExtension | electron-app/src/renderer.ts:161-164 | the result is lower case and holds no dot; it is empty without a dot or when the only dot is the first character, and otherwise it is the lower-cased text after the last dot |
| Renderer.CategoryFrom | electron-app/src/renderer.ts:183-189 | the walk over the table gives `other` exactly when no list from that row on holds the extension, and otherwise the name of the first row whose list does |
| Renderer.CategoryNames | electron-app/src/renderer.ts:172-181 | the eight category names are distinct and none is `other` |
| Renderer.CategoriesDisjoint | electron-app/src/renderer.ts:172-181 | no extension is listed under two categories |
| Renderer.CategoryUnique | electron-app/src/renderer.ts:172-189 | the category found is the only one whose list holds the extension |
| Renderer.GetFileTypeCategory | electron-app/src/renderer.ts:169-190 | the loop returns the table walk on the lower-cased extension: `other` exactly when no list holds it, and otherwise the unique category listing it, whatever the argument's case |
| ElectronUtils.GetFileExtension | polymet-fainder/src/lib/electron-utils.ts:64-66 | the result is the lower-cased text after the last dot: the whole name lower-cased when there is no dot, empty for a name ending in a dot; it never holds a dot |
| ElectronUtils.ListsDisjoint | polymet-fainder/src/lib/electron-utils.ts:70-82 | the image, document and code lists share no extension |
| ElectronUtils.ClassesDisjoint | polymet-fainder/src/lib/electron-utils.ts:69-84 | at most one of `isImageFile`, `isDocumentFile`, `isCodeFile` holds for any name |
| ElectronUtils.ExtensionIgnoresCase | polymet-fainder/src/lib/electron-utils.ts:64-66 | the extension of the lower-cased name is the extension of the name |
| ElectronUtils.ClassesIgnoreCase | polymet-fainder/src/lib/electron-utils.ts:69-84 | the extension and the three classifications do not depend on the name's case |
| ElectronUtils.WholeNameIsExtension | polymet-fainder/src/lib/electron-utils.ts:81-84 | a name without a dot is classified by the whole name, so files named `go` or `Go` are code |
| ExtensionCompare.ExtensionsAgreeIff | electron-app/src/renderer.ts:161-164 | the renderer's helper and the `split`/`pop` helper (also used by `readDirectory`) agree exactly when the last dot is past the first character or both give the empty string |
| ExtensionCompare.MakefileDisagrees | polymet-fainder/src/lib/electron-utils.ts:64-66 | `Makefile` has no extension for the renderer and `makefile` for the other helper |
| ExtensionCompare.DotfileDisagrees | electron-app/src/renderer.ts:161-164 | `.gitignore` has no extension for the renderer and `gitignore` for the other helper |
| ExtensionCompare.DoubleExtensionAgrees | electron-app/src/main.ts:492-493 | for `archive.tar.GZ` both helpers give `gz` |
| FixMarkdown.BlanksInsertedTrans | fix-markdown.js:58-136 | inserting empty lines after inserting empty lines is inserting empty lines |
| FixMarkdown.BlanksInsertedLength | fix-markdown.js:58-136 | insertions only lengthen the list; a list of the same length is the original |
| FixMarkdown.BlanksInsertedNonEmpty | fix-markdown.js:58-136 | leaving out the empty lines, the list after insertions is the original list |
| FixMarkdown.PendingFencesInsert | fix-markdown.js:124-133 | an inserted empty line never adds a fence followed by a non-blank line, and one inserted right after such a fence removes one |
| FixMarkdown.SetOffInsert | fix-markdown.js:58-136 | an empty line inserted anywhere keeps every line that was set off by acceptable neighbours set off, shifting the bound past the insertion |
| FixMarkdown.SetOffInsertAll | fix-markdown.js:58-136 | an empty line inserted anywhere keeps a text whose items are all set off that way |
| FixMarkdown.BlankBefore | fix-markdown.js:63-117 | the first half of a turn adds one line and one fix or neither, and leaves the line it looks at at the returned index |
| FixMarkdown.BlankAfter | fix-markdown.js:71-102 | the second half adds one line and one fix or neither, and keeps every line up to the item in place |
| FixMarkdown.SpaceTurn | fix-markdown.js:59-103 | a turn of pass 1 or 2 adds exactly as many lines as fixes, and records only the two fixes of its pass |
| FixMarkdown.BlankBeforeSetOff | fix-markdown.js:64-93 | after the first half the line before the item is acceptable, and the items before it stay set off |
| FixMarkdown.BlankAfterSetOff | fix-markdown.js:71-102 | after the second half the item itself is set off on both sides, and the items before it stay set off |
| FixMarkdown.SpaceTurnSetOff | fix-markdown.js:59-103 | a turn leaves every item up to the scan position set off: the loop invariant of passes 1 and 2 |
| FixMarkdown.HalfTurnKeeps | fix-markdown.js:58-136 | a half turn that inserts at most one empty line keeps any kind of line set off throughout the text |
| FixMarkdown.SpaceTurnKeeps | fix-markdown.js:80-103 | a turn of pass 2 keeps headings that were spaced spaced |
| FixMarkdown.SpaceHeadings | fix-markdown.js:58-77 | pass 1 leaves every heading (MD022) with a blank line, a `#` line or the edge of the text on both sides; it only inserts empty lines, one per recorded fix, and records only heading fixes |
| FixMarkdown.SpaceHeadingAt | fix-markdown.js:59-76 | one turn of pass 1 does exactly what `HeadingTurn` describes (the source's two `splice` checks), inserts empty lines only, and moves the scan forward by the termination measure |
| FixMarkdown.BlankBeforeAt | fix-markdown.js:64-93 | the source's first check of a turn does what `BlankBefore` describes and inserts empty lines only |
| FixMarkdown.BlankAfterAt | fix-markdown.js:71-102 | the source's second check of a turn does what `BlankAfter` describes and inserts empty lines only |
| FixMarkdown.SpaceLists | fix-markdown.js:79-104 | pass 2 leaves every list item (MD032) with an item, a blank line or the edge before it and an item, a blank line, a `#` line or the edge after it; spaced headings stay spaced; it only inserts empty lines, one per recorded fix, and records only list fixes |
| FixMarkdown.SpaceListAt | fix-markdown.js:80-103 | one turn of pass 2 does exactly what `ListTurn` describes (a missing neighbour counts as blank), inserts empty lines only, and moves the scan forward by the termination measure |
| FixMarkdown.ClosingFence | fix-markdown.js:119-126 | the first fence after the given line, or -1 when none follows |
| FixMarkdown.FindClosingFence | fix-markdown.js:119-126 | the inner loop finds the index of the first fence after the given line, or -1 when there is none |
| FixMarkdown.FenceAfter | fix-markdown.js:128-134 | the second half of a turn of pass 3 adds one line and one `after fence` fix or neither |
| FixMarkdown.FenceTurn | fix-markdown.js:107-135 | a turn of pass 3 adds exactly as many lines as fixes, and records only the two fence fixes |
| FixMarkdown.FenceTurnKeeps | fix-markdown.js:107-135 | a turn of pass 3 keeps spaced headings and spaced list items spaced |
| FixMarkdown.SpaceFences | fix-markdown.js:106-136 | pass 3 keeps spaced headings and list items spaced, only inserts empty lines, one per recorded fix, records only fence fixes, and terminates |
| FixMarkdown.SpaceFenceAt | fix-markdown.js:107-135 | one turn of pass 3 does exactly what `FenceTurn` describes, inserts empty lines only, and strictly lowers the lines left to scan plus the fences still followed by a non-blank line |
| FixMarkdown.CloseFenceAt | fix-markdown.js:119-134 | the closing-fence search and the blank after it do what `FenceAfter` describes, insert empty lines only, and never raise the termination measure |
| FixMarkdown.ChangedLines | fix-markdown.js:138-186 | the positions, strictly ascending, at which two lists of the same length differ |
| FixMarkdown.ChangedLinesSnoc | fix-markdown.js:139-186 | looking at one more line adds its position exactly when it differs |
| FixMarkdown.ChangedLinesComplete | fix-markdown.js:139-186 | every position at which the lists differ is listed |
| FixMarkdown.ChangedLinesEmpty | fix-markdown.js:139-186 | no position is listed exactly when the lists are equal |
| FixMarkdown.RecordsChangesStep | fix-markdown.js:139-186 | a turn that records a fix exactly when it changes its line keeps one fix per changed line, in line order |
| FixMarkdown.GuessLanguageOrder | fix-markdown.js:143-157 | the guess is one of four languages or none, tried in priority order; `npm ` always gives `javascript`, and `bash` needs `cd ` or `git ` without any earlier marker |
| FixMarkdown.LabelFences | fix-markdown.js:138-162 | pass 4 keeps the length and rewrites each line as the guess from the three lines after it in the input says; it records exactly one fix per changed line, in line order, naming the language now on that fence; none exactly when nothing changed |
| FixMarkdown.LabelFenceAt | fix-markdown.js:140-161 | one turn of pass 4 rewrites line `i` as `LabelledLine` says (the window it reads is still the input's) and records a language fix exactly when the line changed |
| FixMarkdown.LabelledStep | fix-markdown.js:139-162 | a turn of pass 4 extends the loop invariant by one line: lines so far labelled, the rest unchanged, one language fix per changed line |
| FixMarkdown.SameSlice | fix-markdown.js:143 | lists that agree from a position on give the same window there |
| FixMarkdown.LabelledLineChanges | fix-markdown.js:139-161 | pass 4 changes only bare fences, each into a fence labelled `javascript`, `bash`, `typescript` or `json` |
| FixMarkdown.DemoteHeadings | fix-markdown.js:164-176 | pass 5 keeps the length, gives a `#` to every `# ` heading that has one before it, keeps the other lines, and records exactly one fix per demoted heading, in line order, showing its first 50 characters; none exactly when nothing changed |
| FixMarkdown.DemoteHeadingAt | fix-markdown.js:166-176 | one turn of pass 5 rewrites line `i` as `DemotedLine` says, records a demotion fix exactly when the line changed, and keeps `hasTopLevelHeading` equal to "a `# ` heading came before" |
| FixMarkdown.DemotedStep | fix-markdown.js:166-176 | a turn of pass 5 extends the loop invariant by one line: lines so far demoted as needed, the rest unchanged, one demotion fix per changed line |
| FixMarkdown.OneTopHeading | fix-markdown.js:164-176 | after pass 5 at most one line is a `# ` heading, and it is the first one of the input, unchanged |
| FixMarkdown.StripTrailingWhitespace | fix-markdown.js:178-186 | pass 6 keeps the length; each line becomes its original without trailing white space (a prefix, the rest blank, ending in a non-space); exactly one fix per changed line, in line order, naming its 1-based number; none exactly when nothing changed |
| FixMarkdown.StripLineAt | fix-markdown.js:179-186 | one turn of pass 6 replaces line `i` by its original without trailing white space and records its 1-based number exactly when the line changed |
| FixMarkdown.StrippedStep | fix-markdown.js:179-186 | a turn of pass 6 extends the loop invariant by one line: lines so far stripped, the rest unchanged, one fix per changed line |
| FixMarkdown.TrimmedLines | fix-markdown.js:181 | a line cut by the trailing-white-space replace is a prefix of its original, the rest of which is white space, and it ends in a non-space |
| FixMarkdown.Labelled | fix-markdown.js:138-162 | pass 4 over a whole list: same length, each line as `LabelledLine` says |
| FixMarkdown.Demoted | fix-markdown.js:164-176 | pass 5 over a whole list: same length, each line as `DemotedLine` says |
| FixMarkdown.Stripped | fix-markdown.js:178-186 | pass 6 over a whole list: same length, each line without its trailing white space |
| FixMarkdown.WithFinalNewline | fix-markdown.js:188-195 | the text ends with a newline: unchanged when it already does, otherwise with one appended |
| FixMarkdown.FixMarkdownContent | fix-markdown.js:51-196 | the result is passes 4-7 applied to a text that is the split input with only empty lines inserted and in which every heading and list item is spaced; it always ends with a newline; with no fixes it equals the input; an input not ending in a newline always yields a fix |
| SearchBlock.PatchLaws | polymet-fainder/src/polymet/components/block-editor.tsx:51 | a block patch is a shallow merge: the empty patch changes nothing, a patch applied twice is applied once, two patches are their combination, and a patch without `id` keeps the id |
| SearchBlock.ValueChange | polymet-fainder/src/polymet/components/search-block.tsx:50-52 | the update targets the block's own id and changes only `value` |
| SearchBlock.TypeChange | polymet-fainder/src/polymet/components/search-block.tsx:54-60 | the update targets the block's own id, sets the type, and resets the value to `''` and the options to `{}` |
| SearchBlock.OptionChange | polymet-fainder/src/polymet/components/search-block.tsx:62-65 | the update targets the block's own id and sets the one option key; every other existing option is kept and none is added, starting from `{}` when options are absent |
| BlockEditor.AddBlock | polymet-fainder/src/polymet/components/block-editor.tsx:33-47 | the list grows by one block at the end: the new id, type `text`, value `''` and exactly the three options, all off |
| BlockEditor.UpdateBlock | polymet-fainder/src/polymet/components/block-editor.tsx:49-55 | the length is kept, blocks with the id get the patch merged in, all others are unchanged |
| BlockEditor.UpdateLaws | polymet-fainder/src/polymet/components/block-editor.tsx:49-55 | an update for an absent id or with an empty patch changes nothing, and a block's own value-change update reaches that block |
| BlockEditor.RemoveBlockSpec | polymet-fainder/src/polymet/components/block-editor.tsx:57-61 | removal drops exactly the blocks with the id and keeps every other block, each as often as it occurred, in order |
| BlockEditor.MoveBack | polymet-fainder/src/polymet/components/block-editor.tsx:66-68 | moving a block and then moving it back restores the list |
| BlockEditor.DragEnd | polymet-fainder/src/polymet/components/block-editor.tsx:63-72 | a drop without a destination changes nothing; otherwise the result is a permutation of the same length with the moved block at the destination, and the other blocks keep their relative order |
| SearchPage.FindLabel | project-1749984823338/app/page.tsx:62 | `find` gives nothing exactly when no entry has the type, and otherwise the label of the first entry that has it |
| SearchPage.LabelFallback | project-1749984823338/app/page.tsx:62 | the label falls back to `Filter` exactly for types the table does not list |
| SearchPage.PlaceholderFallback | project-1749984823338/app/page.tsx:79-89 | the placeholder falls back to `Enter value...` exactly for types the table does not list |
| SearchPage.FindLabelAt | project-1749984823338/app/page.tsx:62 | the lookup finds an entry that no earlier entry shadows |
| SearchPage.BlockTypesDistinct | project-1749984823338/app/page.tsx:49-56 | no type appears twice among the offered block types |
| SearchPage.OfferedTypeListed | project-1749984823338/app/page.tsx:49-88 | every type an add button offers gets its own label and has a placeholder, so neither fallback occurs from the page |
| SearchPage.OfferedTypeLabelled | project-1749984823338/app/page.tsx:49-62 | every offered type is labelled with its own table label |
| SearchPage.OfferedTypePlaceheld | project-1749984823338/app/page.tsx:80-87 | every offered type has an entry in the placeholder table |
| SearchPage.AddBlock | project-1749984823338/app/page.tsx:58-67 | the list grows by one block at the end, with the clock's id, the type, its label and placeholder, and an empty value |
| SearchPage.UpdateBlock | project-1749984823338/app/page.tsx:73-77 | the length is kept and only the value of blocks with the id changes |
| SearchPage.RemoveBlockSpec | project-1749984823338/app/page.tsx:69-71 | removal drops exactly the blocks with the id and keeps every other block, each as often as it occurred, in order; with distinct ids and the remove button shown, one block goes and at least one stays |
| SearchPage.RemoveOneBlock | project-1749984823338/app/page.tsx:69-71 | while ids are distinct, removing the id of one block drops that block and keeps all the others in order |
| SearchPage.RemoveOffered | project-1749984823338/app/page.tsx:69-71 | with distinct ids and the remove button shown, removing an id some block carries leaves one block fewer and at least one |
| SearchPage.InitialState | project-1749984823338/app/page.tsx:30-38 | the page starts with one text block carrying the table's label and placeholder, so no remove button is shown |
| FilterPanel.MergeLaws | polymet-fainder/src/polymet/components/filter-panel.tsx:65-69 | the filter merge is shallow: the empty patch changes nothing and a patch applied twice is applied once |
| FilterPanel.HandleFilterChange | polymet-fainder/src/polymet/components/filter-panel.tsx:65-69 | each supplied field overrides, each absent one stays, the input text is kept, and the merged filters are what is handed on |
| FilterPanel.AddExcludePath | polymet-fainder/src/polymet/components/filter-panel.tsx:71-77 | a blank input does nothing and hands nothing on; otherwise the trimmed path (non-empty, no white space at its ends) is appended, duplicates allowed, the input is cleared, and the new filters are handed on |
| FilterPanel.RemoveExcludePath | polymet-fainder/src/polymet/components/filter-panel.tsx:79-82 | only the exclude paths change, and the new filters are handed on |
| FilterPanel.RemoveExcludePathSpec | polymet-fainder/src/polymet/components/filter-panel.tsx:79-82 | every copy of the path is removed and every other path is kept as often as it occurred, in order |
| FilterPanel.SelectFileType | polymet-fainder/src/polymet/components/filter-panel.tsx:107-111 | `all` selects no type constraint and any other value the one-element list of it; nothing else changes |
| FilterPanel.SetSizeRange | polymet-fainder/src/polymet/components/filter-panel.tsx:136-140 | the slider sets the size range and nothing else |
| FilterPanel.SetFrom | polymet-fainder/src/polymet/components/filter-panel.tsx:185-189 | picking or clearing the start date keeps the end date and every other filter |
| FilterPanel.SetTo | polymet-fainder/src/polymet/components/filter-panel.tsx:220-224 | picking or clearing the end date keeps the start date and every other filter |
| FilterPanel.SetIncludeHidden | polymet-fainder/src/polymet/components/filter-panel.tsx:278-280 | the switch sets the hidden-files flag and nothing else |
| FilterPanel.Reset | polymet-fainder/src/polymet/components/filter-panel.tsx:292-313 | Reset sets and hands on exactly the filters the panel starts with (lines 52-61) |
| HomePage.HandleSearchSpec | polymet-fainder/src/polymet/pages/home-page.tsx:22-43 | an empty query lists every file in order; otherwise exactly the files whose name, path or type contains the query, ignoring case, each as often as it occurs, in order; the options make no difference |
| HomePage.FilterResultsIsOneFilter | polymet-fainder/src/polymet/pages/home-page.tsx:45-102 | the four-stage pipeline, always started from the full list, is one filter by the conjunction of its guarded tests |
| HomePage.FilterResultsSpec | polymet-fainder/src/polymet/pages/home-page.tsx:51-97 | the filters keep exactly the passing files, each as often as it occurs, in their order; no kept file's path contains an excluded path, ignoring case; the megabyte size test is an exact comparison on bytes |
| HomePage.SizeInMegabytes | polymet-fainder/src/polymet/pages/home-page.tsx:63-71 | `lo <= size / 2^20 <= hi` holds exactly when `lo * 2^20 <= size <= hi * 2^20` |
| HomePage.InitialFiltersKeepAll | polymet-fainder/src/polymet/pages/home-page.tsx:51-97 | the filters the panel starts with, and resets to, keep every file in order |
| HomePage.OfTypeMember | polymet-fainder/src/polymet/pages/home-page.tsx:113-147 | the blocks collected for a type are exactly the blocks of that type, and the group is empty exactly when no block has it |
| HomePage.BlockSearchIsOneFilter | polymet-fainder/src/polymet/pages/home-page.tsx:159-208 | the block search is one filter: blocks of one type are alternatives, the text, file-type and path groups must all hold, and an empty group holds for every file |
| HomePage.BlockSearchSpec | polymet-fainder/src/polymet/pages/home-page.tsx:104-153 | a preset or block run keeps exactly the files passing the blocks, each as often as it occurs, in order; no blocks keeps every file |
| HomePage.OtherBlocksIgnored | polymet-fainder/src/polymet/pages/home-page.tsx:168-202 | blocks of any type other than text, file type and path make no difference to the result |
| PresetCard.BlockTypeSummary | polymet-fainder/src/polymet/components/preset-card.tsx:51-63 | one entry per block type present, each type once, in first-occurrence order; each count is at least 1 and the number of blocks of that type; the counts sum to the number of blocks |
| PresetCard.CountBlock | polymet-fainder/src/polymet/components/preset-card.tsx:52-56 | one step of the `forEach` counts the block's type, lists a type the first time it occurs, and keeps the types in first-occurrence order |
| PresetCard.FirstIndex | polymet-fainder/src/polymet/components/preset-card.tsx:51-63 | the position of the first block of a type, the number of blocks when there is none: the order in which the summary lists the types |
| PresetCard.TypeCountPositive | polymet-fainder/src/polymet/components/preset-card.tsx:52-56 | a type some block has is counted at least once |
| PresetCard.AgeOf | polymet-fainder/src/polymet/components/preset-card.tsx:65-77 | no `lastUsed` is `Never`; otherwise the whole days between the two instants give `Today` (0), `Yesterday` (1), days (2-6), weeks `d / 7` (7-29) or months `d / 30` (30 on), each exactly on its range |
| PresetCard.FormatLastUsedSymmetric | polymet-fainder/src/polymet/components/preset-card.tsx:68-71 | an instant in the future reads the same as one equally far in the past |
| PresetCard.AgeTextInjective | polymet-fainder/src/polymet/components/preset-card.tsx:73-77 | different buckets never show the same text |
| PresetManager.ParseTags | polymet-fainder/src/polymet/components/preset-manager.tsx:79-82 | every parsed tag is non-empty, has no white space at its ends and holds no comma |
| PresetManager.ParseJoinTags | polymet-fainder/src/polymet/components/preset-manager.tsx:68 | tags that are trimmed words without commas come back unchanged from the edit dialog's `", "` join followed by the save's parse |
| PresetManager.Upsert | polymet-fainder/src/polymet/components/preset-manager.tsx:85-88 | a new id is appended at the end; an existing id is replaced in place, with the length and all other presets unchanged |
| PresetManager.SavePreset | polymet-fainder/src/polymet/components/preset-manager.tsx:72-93 | nothing happens exactly when no preset is being edited or the name is blank; otherwise the normalised preset is upserted and the dialog closes |
| PresetManager.SavedPresetShape | polymet-fainder/src/polymet/components/preset-manager.tsx:75-83 | a saved preset keeps its id, blocks and `lastUsed`; it has a trimmed non-blank name, a description absent exactly when its input was blank (trimmed otherwise), and trimmed non-empty tags |
| PresetManager.CreateSaveAppends | polymet-fainder/src/polymet/components/preset-manager.tsx:50-93 | saving a freshly created preset needs a non-blank name; with one, a preset with the new id, no blocks, never used and the normalised inputs is appended and the others stay |
| PresetManager.EditSaveRoundTrip | polymet-fainder/src/polymet/components/preset-manager.tsx:64-93 | opening a saved, normalised preset in the dialog and saving it untouched leaves the list as it was |
| PresetManager.DeletePresetSpec | polymet-fainder/src/polymet/components/preset-manager.tsx:95-98 | deletion drops exactly the presets with the id and keeps every other preset, each as often as it occurred, in order |
| PresetManager.RunPreset | polymet-fainder/src/polymet/components/preset-manager.tsx:100-113 | only presets with the run preset's id get `lastUsed := now`, the length is kept, and the preset handed on is the updated one |
| PresetManager.FilteredPresetsTabs | polymet-fainder/src/polymet/components/preset-manager.tsx:115-139 | the `all` tab with an empty search lists every preset, and a tab other than `all` and `recent` lists none |
| PresetManager.FilteredRecent | polymet-fainder/src/polymet/components/preset-manager.tsx:128-136 | the `recent` tab lists the `all` tab's presets that were used less than seven days ago, in the same order |
| PresetManager.FilteredMember | polymet-fainder/src/polymet/components/preset-manager.tsx:115-140 | a preset is listed exactly when it passes the search and tab test |
| ResultCard.GetFileIconSpec | polymet-fainder/src/polymet/components/result-card.tsx:47-64 | the icon is that of the first rule, in the source's order, with a keyword in the lower-cased type; the choice does not depend on case |
| ResultCard.FolderBeatsImage | polymet-fainder/src/polymet/components/result-card.tsx:49-52 | a type naming both a folder and an image shows the folder icon |
| ResultCard.FormatFileSizeUnits | polymet-fainder/src/polymet/components/result-card.tsx:66-74 | bytes exactly below 1024, printed as the integer and ` B`; KB exactly on `[2^10, 2^20)`, MB on `[2^20, 2^30)`, GB from `2^30`, each showing the byte count over its unit, at least 1 and, below GB, under 1024 |
| ResultsList.StrCompareOrder | polymet-fainder/src/polymet/components/results-list.tsx:51 | the string order standing for `localeCompare` is antisymmetric, zero only on equal strings, and transitive |
| ResultsList.ComparePreorder | polymet-fainder/src/polymet/components/results-list.tsx:48-61 | for every key the comparator is a total preorder, and an unknown key compares everything as equal |
| ResultsList.SinkInto | polymet-fainder/src/polymet/components/results-list.tsx:48-61 | one insertion step extends the sorted prefix by one element, keeps the array's elements, and changes nothing for an unknown key |
| ResultsList.SortResults | polymet-fainder/src/polymet/components/results-list.tsx:48-61 | the result is a sorted permutation of the results; for an unknown key, the results in their order |
| ResultsList.TotalPages | polymet-fainder/src/polymet/components/results-list.tsx:64 | the page count is the least number of 12-item pages that holds the results |
| ResultsList.PageItemsSpec | polymet-fainder/src/polymet/components/results-list.tsx:65-69 | page `p` shows the sorted items from `(p - 1) * 12` to `p * 12`, cut at the end; at most 12; none past the last page |
| ResultsList.PagesPrefix | polymet-fainder/src/polymet/components/results-list.tsx:65-69 | the first `k` pages one after the other are the first `12k` sorted items, cut at the end |
| ResultsList.PagesCoverList | polymet-fainder/src/polymet/components/results-list.tsx:64-69 | pages 1 to the page count together are exactly the sorted list |
| ResultsList.PagingStaysInRange | polymet-fainder/src/polymet/components/results-list.tsx:143-161 | Prev never goes below 1; from a page in range both buttons move at most one page and stay in range; the controls show exactly when there are more than 12 results |
| SearchBar.InitialState | polymet-fainder/src/polymet/components/search-bar.tsx:23-30 | the bar starts with the given query (`''` by default) and every option off |
| SearchBar.ToggleOption | polymet-fainder/src/polymet/components/search-bar.tsx:36-41 | the named option flips and the others stay |
| SearchBar.ToggleLaws | polymet-fainder/src/polymet/components/search-bar.tsx:36-41 | toggling an option twice restores the options, and toggles of two options commute |
| SearchBar.HandleSearch | polymet-fainder/src/polymet/components/search-bar.tsx:32-34 | the search passes on the current query and options unchanged |
| MainLayout.SavedTheme | polymet-fainder/src/polymet/layouts/main-layout.tsx:44-46 | a saved theme counts exactly when the key is present and non-empty, and it is the stored text |
| MainLayout.FlipLaws | polymet-fainder/src/polymet/layouts/main-layout.tsx:56 | a toggle gives `dark` exactly from `light` and `light` from anything else; from `light` or `dark`, two toggles restore the theme |
| MainLayout.MountPrecedence | polymet-fainder/src/polymet/layouts/main-layout.tsx:44-52 | a saved theme is adopted as it is, ahead of the system preference; without one the theme becomes `dark` when the system prefers it and otherwise stays |
| MainLayout.ToggleSurvivesRestart | polymet-fainder/src/polymet/layouts/main-layout.tsx:55-59 | the theme a toggle stores is the theme the next mount adopts, whatever the system prefers |
| MainLayout.ThemeState.constructor | polymet-fainder/src/polymet/layouts/main-layout.tsx:36 | the theme starts as `light` with no `dark` class |
| MainLayout.ThemeState.Mount | polymet-fainder/src/polymet/layouts/main-layout.tsx:39-53 | the mount effect sets the theme by the precedence above and sets the class to match, adds it, or leaves it, for the three cases; it never writes storage and keeps the class matching the theme |
| MainLayout.ThemeState.ToggleTheme | polymet-fainder/src/polymet/layouts/main-layout.tsx:55-60 | a toggle flips the theme, sets the `dark` class exactly for `dark`, and stores the new theme |

## Left out

- Electron plumbing in `main.ts` is not modelled: window and menu creation, loading the React app, saving window bounds, the process error hooks, `openPath`/`showItemInFolder`, minimize, close, GET_PREFERENCES, the Onlook file read/write handlers and the TODO stubs. These are calls into Electron or the file system with no logic of their own.
- The window's optional x/y position is not tracked (`Host.WindowState`). No modelled handler reads or writes it.
- `Host.ReadDirectory` has no asynchrony and no console output; the warned paths are returned as a sequence. The `readdir` order is taken as given.
- `Host.FAInderApp.SelectDirectory`: when the dialog is not cancelled but selects nothing, the source returns `undefined` (`filePaths[0]`); the model gives no path, like `null`.
- `Host.DetermineReactAppPath`: `existsSync` is a parameter giving `Some(b)` or `None` for a throw; the debug logging is left out.
- `Renderer.IsValidPath`: the `typeof path !== 'string'` test is not modelled, since the model's argument is always a string.
- `electron-app/src/preload.ts` and `electron-app/src/types.ts` hold only forwarding and declarations; the `FileEntry` and `AppPreferences` shapes appear as datatypes in `Host`.
- The clock, timer and floating-point helpers are not modelled: `debounce`, `throttle`, `delay`, `safeFileOperation`, both `formatFileSize` functions of the filename helpers, `formatDate`, and the environment probes.
- `ResultCard.FormatFileSizeUnits`: the `toFixed(2)` rendering of the scaled amounts is not modelled; the unit and the exact amount are.
- `Math.random`, `generateId`, `Date.now()` and `new Date()` are parameters (`newId`, `id`, `now`). The simulated `setTimeout` delays of the pages are left out.
- The file-system side of `fix-markdown.js` is not modelled (finding files, backups, writing, console output). Only `fixMarkdownContent` is; its fix messages are a datatype with the message texts as a function.
- `FixMarkdown.SpaceFences`: as written, pass 3 treats a closing fence as a new opening fence. The model does the same and proves only the blank-line and termination properties, not a pairing of fences.
- `FixMarkdown.SpaceFenceAt`: one turn is proved to do what `FenceTurn` describes, but fences are not proved to be spaced afterwards (MD031). A closing fence is scanned again as an opening one, so the pairing the rule assumes is not modelled; only the spacing of headings and list items is proved to survive pass 3.
- `FixMarkdown.GuessLanguageOrder`: the `npm ` test of the `bash` rule can never decide, because the `javascript` rule tests `npm ` first. The model keeps the test.
- Development and bootstrap scripts, the build configuration, routing, hooks, JSX rendering and the sample data are not modelled; the sample files are the parameter `files`.
- Lower-casing is ASCII only, and `localeCompare` is lexicographic order on character codes (`ResultsList.StrCompare`). Locale-aware collation and full Unicode case mapping are not modelled.
- `ResultsList.SortResults` is stated as a sorted permutation. Stability (equal elements keeping their order) is stated only for unknown keys, where everything is equal. The JavaScript engine's sort algorithm is not modelled; an insertion sort stands for it.
- `ResultsList.PageItemsSpec`: the component does not reset `currentPage` when the results change. The model covers that case only by proving that a page past the last one is empty.
- `PresetCard.BlockTypeSummary`: `Object.entries` lists integer-like keys first in numeric order. The model lists every key in insertion order, which differs only for block types that are integer strings.
- `SearchPage.Placeholder`: the placeholder lookup in the source also sees the object's inherited properties (for example `constructor`). The model looks up only the table's own six keys.
- `BlockEditor.DragEnd`: the drag library's indices are assumed to be in range; the source does not check them.
- Dates are milliseconds since the epoch, so `Date` objects are compared as numbers.
- Patch fields that are present but set to `undefined` are not modelled: a patch field is either absent or a value.
