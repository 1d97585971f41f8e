/** The Electron main-process host (`electron-app/src/main.ts`, class `FAInderApp`) and the
    record shapes it shares with the renderer (`electron-app/src/types.ts`). The file
    system, the `path` module, `existsSync` and the open-directory dialog are
    parameters of the operations that use them. */
module Host {
  import opened Wrappers
  import opened Text
  import Seqs
  import ElectronUtils

  // ---------------------------------------------------------------------------
  // Directory listing

  /** What `readdir(..., { withFileTypes: true })` reports of an entry's kind. */
  datatype DirentKind = File | Directory | Symlink | OtherKind

  datatype Dirent = Dirent(name: string, kind: DirentKind)

  /** The part of `fs.Stats` the listing reads; `stat` follows symbolic links. */
  datatype Stat = Stat(size: nat, mtime: int, birthtime: int)

  datatype AccessMode = ReadOk | WriteOk | ExecuteOk

  datatype Permissions = Permissions(readable: bool, writable: bool, executable: bool)

  /** `FileEntry` of `types.ts`; times are milliseconds since the epoch. */
  datatype FileEntry = FileEntry(
    name: string,
    path: string,
    absolutePath: string,
    isDirectory: bool,
    size: nat,
    modified: int,
    created: int,
    extension: string,
    permissions: Permissions)

  /** The file system: `readdir` either lists a directory or throws, `stat` either
      succeeds or throws, and `access` succeeds or throws for each mode. */
  datatype FileSystem = FileSystem(
    readdir: string -> Result<seq<Dirent>, string>,
    stat: string -> Option<Stat>,
    access: (string, AccessMode) -> bool)

  /** `path.join` and `path.resolve`. */
  datatype PathOps = PathOps(join: seq<string> -> string, resolve: string -> string)

  function FullPath(paths: PathOps, dirPath: string, d: Dirent): string {
    paths.join([dirPath, d.name])
  }

  predicate StatSucceeds(fs: FileSystem, paths: PathOps, dirPath: string, d: Dirent) {
    fs.stat(FullPath(paths, dirPath, d)).Some?
  }

  /** The entries whose `stat` succeeds, in `readdir` order. */
  function Kept(fs: FileSystem, paths: PathOps, dirPath: string, entries: seq<Dirent>): seq<Dirent>
    decreases |entries|
  {
    if |entries| == 0 then []
    else
      var head := if StatSucceeds(fs, paths, dirPath, entries[0]) then [entries[0]] else [];
      head + Kept(fs, paths, dirPath, entries[1..])
  }

  /** The joined paths of the entries whose `stat` fails, in `readdir` order. */
  function Dropped(fs: FileSystem, paths: PathOps, dirPath: string, entries: seq<Dirent>): seq<string>
    decreases |entries|
  {
    if |entries| == 0 then []
    else
      var head := if StatSucceeds(fs, paths, dirPath, entries[0]) then [] else [FullPath(paths, dirPath, entries[0])];
      head + Dropped(fs, paths, dirPath, entries[1..])
  }

  lemma {:induction false} KeptSnoc(fs: FileSystem, paths: PathOps, dirPath: string, s: seq<Dirent>, d: Dirent)
    ensures Kept(fs, paths, dirPath, s + [d]) ==
      Kept(fs, paths, dirPath, s) + (if StatSucceeds(fs, paths, dirPath, d) then [d] else [])
    ensures Dropped(fs, paths, dirPath, s + [d]) ==
      Dropped(fs, paths, dirPath, s) + (if StatSucceeds(fs, paths, dirPath, d) then [] else [FullPath(paths, dirPath, d)])
    decreases |s|
  {
    if |s| > 0 {
      assert (s + [d])[1..] == s[1..] + [d];
      KeptSnoc(fs, paths, dirPath, s[1..], d);
    } else {
      assert (s + [d])[1..] == [];
    }
  }

  /** Every entry is either listed or warned about, never both: an entry is kept exactly
      when its `stat` succeeds, the kept ones keep their `readdir` order, and a failing
      `stat` removes that entry alone. */
  lemma {:induction false} KeptPartition(fs: FileSystem, paths: PathOps, dirPath: string, entries: seq<Dirent>)
    ensures |Kept(fs, paths, dirPath, entries)| + |Dropped(fs, paths, dirPath, entries)| == |entries|
    ensures Seqs.IsSubsequence(Kept(fs, paths, dirPath, entries), entries)
    ensures forall d :: d in entries ==> (d in Kept(fs, paths, dirPath, entries) <==> StatSucceeds(fs, paths, dirPath, d))
    decreases |entries|
  {
    if |entries| > 0 {
      KeptPartition(fs, paths, dirPath, entries[1..]);
      var rest := Kept(fs, paths, dirPath, entries[1..]);
      if StatSucceeds(fs, paths, dirPath, entries[0]) {
        assert Kept(fs, paths, dirPath, entries) == [entries[0]] + rest;
        assert ([entries[0]] + rest)[1..] == rest;
      } else {
        assert Kept(fs, paths, dirPath, entries) == rest;
        KeptNotFailing(fs, paths, dirPath, entries[1..]);
        if |rest| > 0 {
          assert rest[0] in rest;
        }
      }
      assert entries == [entries[0]] + entries[1..];
    }
  }

  lemma {:induction false} KeptNotFailing(fs: FileSystem, paths: PathOps, dirPath: string, entries: seq<Dirent>)
    ensures forall d :: d in Kept(fs, paths, dirPath, entries) ==> StatSucceeds(fs, paths, dirPath, d)
    decreases |entries|
  {
    if |entries| > 0 {
      KeptNotFailing(fs, paths, dirPath, entries[1..]);
    }
  }

  /** When every `stat` succeeds nothing is dropped. */
  lemma {:induction false} KeptAll(fs: FileSystem, paths: PathOps, dirPath: string, entries: seq<Dirent>)
    requires forall i :: 0 <= i < |entries| ==> StatSucceeds(fs, paths, dirPath, entries[i])
    ensures Kept(fs, paths, dirPath, entries) == entries
    ensures Dropped(fs, paths, dirPath, entries) == []
    decreases |entries|
  {
    if |entries| > 0 {
      KeptAll(fs, paths, dirPath, entries[1..]);
    }
  }

  /** The record `readDirectory` pushes for an entry whose `stat` succeeded: name and
      kind from the dirent, size and times from `stat`, the extension only for plain
      files, and each permission from its own `access` check. */
  predicate Describes(fs: FileSystem, paths: PathOps, dirPath: string, d: Dirent, e: FileEntry) {
    var full := FullPath(paths, dirPath, d);
    fs.stat(full).Some?
    && e.name == d.name
    && e.path == full
    && e.absolutePath == paths.resolve(full)
    && e.isDirectory == (d.kind == Directory)
    && e.size == fs.stat(full).value.size
    && e.modified == fs.stat(full).value.mtime
    && e.created == fs.stat(full).value.birthtime
    && e.extension == (if d.kind == File then ElectronUtils.GetFileExtension(d.name) else "")
    && e.permissions.readable == fs.access(full, ReadOk)
    && e.permissions.writable == fs.access(full, WriteOk)
    && e.permissions.executable == fs.access(full, ExecuteOk)
  }

  /** `readDirectory`: an error of `readdir` is rethrown; otherwise one record per entry
      whose `stat` succeeds, in order, and a warning (the joined path) for each other
      entry. */
  method ReadDirectory(fs: FileSystem, paths: PathOps, dirPath: string)
    returns (r: Result<seq<FileEntry>, string>, warned: seq<string>)
    ensures fs.readdir(dirPath).Err? ==> r == Err(fs.readdir(dirPath).error) && warned == []
    ensures fs.readdir(dirPath).Ok? ==>
      var entries := fs.readdir(dirPath).value;
      var kept := Kept(fs, paths, dirPath, entries);
      r.Ok? && |r.value| == |kept|
      && (forall i :: 0 <= i < |kept| ==> Describes(fs, paths, dirPath, kept[i], r.value[i]))
      && warned == Dropped(fs, paths, dirPath, entries)
  {
    var listing := fs.readdir(dirPath);
    if listing.Err? {
      return Err(listing.error), [];
    }
    var entries := listing.value;
    var fileEntries: seq<FileEntry> := [];
    warned := [];
    var i := 0;
    while i < |entries|
      invariant 0 <= i <= |entries|
      invariant |fileEntries| == |Kept(fs, paths, dirPath, entries[..i])|
      invariant forall j :: 0 <= j < |fileEntries| ==>
        Describes(fs, paths, dirPath, Kept(fs, paths, dirPath, entries[..i])[j], fileEntries[j])
      invariant warned == Dropped(fs, paths, dirPath, entries[..i])
    {
      var entry := entries[i];
      var fullPath := paths.join([dirPath, entry.name]);
      assert entries[..i + 1] == entries[..i] + [entry];
      KeptSnoc(fs, paths, dirPath, entries[..i], entry);
      var stats := fs.stat(fullPath);
      if stats.Some? {
        var extension := if entry.kind == File then ElectronUtils.GetFileExtension(entry.name) else "";
        var readable, writable, executable := false, false, false;
        if fs.access(fullPath, ReadOk) { readable := true; }
        if fs.access(fullPath, WriteOk) { writable := true; }
        if fs.access(fullPath, ExecuteOk) { executable := true; }
        fileEntries := fileEntries + [FileEntry(
          entry.name, fullPath, paths.resolve(fullPath), entry.kind == Directory,
          stats.value.size, stats.value.mtime, stats.value.birthtime, extension,
          Permissions(readable, writable, executable))];
      } else {
        warned := warned + [fullPath];
      }
      i := i + 1;
    }
    assert entries[..i] == entries;
    return Ok(fileEntries), warned;
  }

  // ---------------------------------------------------------------------------
  // Locating the React application

  const DevServerUrl := "http://localhost:5174"

  /** The four places a packaged build may hold the React application, in search order. */
  function Candidates(paths: PathOps, appRoot: string, dirName: string, resourcesPath: string): (c: seq<string>)
    ensures |c| == 4
  {
    [ paths.join([appRoot, "..", "polymet-fainder", "index.html"]),
      paths.join([dirName, "..", "polymet-fainder", "index.html"]),
      paths.join([resourcesPath, "app", "index.html"]),
      paths.join([appRoot, "polymet-fainder", "dist", "index.html"]) ]
  }

  /** `determineReactAppPath`: the dev server in development; otherwise the first candidate
      `existsSync` confirms (a check that throws, `None`, counts as absent), and the first
      candidate when none is confirmed. */
  method DetermineReactAppPath(isDevelopment: bool, paths: PathOps, appRoot: string, dirName: string,
                               resourcesPath: string, existsSync: string -> Option<bool>)
    returns (appPath: string)
    ensures isDevelopment ==> appPath == DevServerUrl
    ensures !isDevelopment ==>
      var c := Candidates(paths, appRoot, dirName, resourcesPath);
      (exists i :: 0 <= i < |c| && appPath == c[i] && existsSync(c[i]) == Some(true)
         && forall j :: 0 <= j < i ==> existsSync(c[j]) != Some(true))
      || (appPath == c[0] && forall j :: 0 <= j < |c| ==> existsSync(c[j]) != Some(true))
  {
    if isDevelopment {
      return DevServerUrl;
    }
    var possiblePaths := Candidates(paths, appRoot, dirName, resourcesPath);
    var i := 0;
    while i < |possiblePaths|
      invariant 0 <= i <= |possiblePaths|
      invariant forall j :: 0 <= j < i ==> existsSync(possiblePaths[j]) != Some(true)
    {
      var testPath := possiblePaths[i];
      var found := existsSync(testPath);
      if found == Some(true) {
        return testPath;
      }
      i := i + 1;
    }
    return possiblePaths[0];
  }

  // ---------------------------------------------------------------------------
  // Preferences and window state

  datatype Theme = Light | Dark | System

  /** `AppPreferences` of `types.ts`. */
  datatype AppPreferences = AppPreferences(
    theme: Theme,
    searchPaths: seq<string>,
    excludePatterns: seq<string>,
    maxFileSize: nat,
    enableFileWatcher: bool,
    searchTimeout: nat,
    maxResults: nat,
    showHiddenFiles: bool,
    autoIndex: bool)

  /** `Partial<AppPreferences>`: the fields the renderer supplies. */
  datatype PreferencesPatch = PreferencesPatch(
    theme: Option<Theme>,
    searchPaths: Option<seq<string>>,
    excludePatterns: Option<seq<string>>,
    maxFileSize: Option<nat>,
    enableFileWatcher: Option<bool>,
    searchTimeout: Option<nat>,
    maxResults: Option<nat>,
    showHiddenFiles: Option<bool>,
    autoIndex: Option<bool>)

  const NoChange := PreferencesPatch(None, None, None, None, None, None, None, None, None)

  /** The preferences the host starts with. */
  const DefaultPreferences := AppPreferences(
    System, [], ["node_modules", ".git", ".DS_Store"], 100 * 1024 * 1024, true, 30000, 1000, false, true)

  /** `{ ...prefs, ...patch }`: every supplied field overrides, every other field stays. */
  function MergePreferences(prefs: AppPreferences, patch: PreferencesPatch): AppPreferences {
    AppPreferences(
      patch.theme.GetOr(prefs.theme),
      patch.searchPaths.GetOr(prefs.searchPaths),
      patch.excludePatterns.GetOr(prefs.excludePatterns),
      patch.maxFileSize.GetOr(prefs.maxFileSize),
      patch.enableFileWatcher.GetOr(prefs.enableFileWatcher),
      patch.searchTimeout.GetOr(prefs.searchTimeout),
      patch.maxResults.GetOr(prefs.maxResults),
      patch.showHiddenFiles.GetOr(prefs.showHiddenFiles),
      patch.autoIndex.GetOr(prefs.autoIndex))
  }

  /** `{ ...p, ...q }` of two patches. */
  function CombinePatches(p: PreferencesPatch, q: PreferencesPatch): PreferencesPatch {
    PreferencesPatch(
      if q.theme.Some? then q.theme else p.theme,
      if q.searchPaths.Some? then q.searchPaths else p.searchPaths,
      if q.excludePatterns.Some? then q.excludePatterns else p.excludePatterns,
      if q.maxFileSize.Some? then q.maxFileSize else p.maxFileSize,
      if q.enableFileWatcher.Some? then q.enableFileWatcher else p.enableFileWatcher,
      if q.searchTimeout.Some? then q.searchTimeout else p.searchTimeout,
      if q.maxResults.Some? then q.maxResults else p.maxResults,
      if q.showHiddenFiles.Some? then q.showHiddenFiles else p.showHiddenFiles,
      if q.autoIndex.Some? then q.autoIndex else p.autoIndex)
  }

  /** A preferences patch is a shallow merge: the empty patch changes nothing, applying a
      patch twice is applying it once, two patches in a row are their combination, and a
      supplied theme or file-size limit is what the merged preferences hold. */
  lemma MergeLaws(prefs: AppPreferences, p: PreferencesPatch, q: PreferencesPatch)
    ensures MergePreferences(prefs, NoChange) == prefs
    ensures MergePreferences(MergePreferences(prefs, p), p) == MergePreferences(prefs, p)
    ensures MergePreferences(MergePreferences(prefs, p), q) == MergePreferences(prefs, CombinePatches(p, q))
    ensures p.theme.Some? ==> MergePreferences(prefs, p).theme == p.theme.value
    ensures p.theme.None? ==> MergePreferences(prefs, p).theme == prefs.theme
    ensures p.maxFileSize.Some? ==> MergePreferences(prefs, p).maxFileSize == p.maxFileSize.value
    ensures p.maxFileSize.None? ==> MergePreferences(prefs, p).maxFileSize == prefs.maxFileSize
  {
  }

  /** `WindowState` of `types.ts`; the optional position is not tracked here. */
  datatype WindowState = WindowState(width: nat, height: nat, isMaximized: bool, isFullScreen: bool)

  const InitialWindowState := WindowState(1200, 800, false, false)

  /** The part of the `BrowserWindow` the handlers query. */
  datatype BrowserWindow = BrowserWindow(isMaximized: bool, isFullScreen: bool)

  /** The MAXIMIZE handler's effect on the window: unmaximize a maximized window,
      maximize any other, do nothing without a window. */
  function ToggleMaximized(w: Option<BrowserWindow>): (r: Option<BrowserWindow>)
    ensures r.Some? <==> w.Some?
    ensures r.Some? ==> r.value.isMaximized != w.value.isMaximized && r.value.isFullScreen == w.value.isFullScreen
  {
    match w
    case None => None
    case Some(win) => Some(win.(isMaximized := !win.isMaximized))
  }

  lemma ToggleMaximizedTwice(w: Option<BrowserWindow>)
    ensures ToggleMaximized(ToggleMaximized(w)) == w
  {
  }

  /** What the open-directory dialog resolves to. */
  datatype DialogResult = DialogResult(canceled: bool, filePaths: seq<string>)

  class FAInderApp {
    var preferences: AppPreferences
    var windowState: WindowState
    var mainWindow: Option<BrowserWindow>

    /** The host's initial state; the window is the one `createMainWindow` made, or none. */
    constructor (window: Option<BrowserWindow>)
      ensures preferences == DefaultPreferences
      ensures windowState == InitialWindowState
      ensures mainWindow == window
    {
      preferences := DefaultPreferences;
      windowState := InitialWindowState;
      mainWindow := window;
    }

    /** The SET_PREFERENCES handler. */
    method SetPreferences(patch: PreferencesPatch)
      modifies this
      ensures preferences == MergePreferences(old(preferences), patch)
      ensures windowState == old(windowState) && mainWindow == old(mainWindow)
    {
      preferences := MergePreferences(preferences, patch);
    }

    /** The MAXIMIZE handler. */
    method Maximize()
      modifies this
      ensures mainWindow == ToggleMaximized(old(mainWindow))
      ensures preferences == old(preferences) && windowState == old(windowState)
    {
      if mainWindow.Some? && mainWindow.value.isMaximized {
        mainWindow := Some(mainWindow.value.(isMaximized := false));
      } else if mainWindow.Some? {
        mainWindow := Some(mainWindow.value.(isMaximized := true));
      }
    }

    /** The window's `maximize` event. */
    method OnMaximize()
      modifies this
      ensures windowState == old(windowState).(isMaximized := true)
      ensures preferences == old(preferences) && mainWindow == old(mainWindow)
    {
      windowState := windowState.(isMaximized := true);
    }

    /** The window's `unmaximize` event. */
    method OnUnmaximize()
      modifies this
      ensures windowState == old(windowState).(isMaximized := false)
      ensures preferences == old(preferences) && mainWindow == old(mainWindow)
    {
      windowState := windowState.(isMaximized := false);
    }

    /** `selectDirectory`: no path without a window or when the dialog is cancelled,
        otherwise the first selected path (an empty selection also gives none). */
    function SelectDirectory(dialog: DialogResult): (selected: Option<string>)
      reads this
      ensures selected.None? <==> mainWindow.None? || dialog.canceled || |dialog.filePaths| == 0
      ensures selected.Some? ==> selected.value == dialog.filePaths[0]
    {
      if mainWindow.None? then None
      else if dialog.canceled then None
      else if |dialog.filePaths| == 0 then None
      else Some(dialog.filePaths[0])
    }
  }
}
