/** The renderer-side filename helpers of the React application
    (`polymet-fainder/src/lib/electron-utils.ts`). */
module ElectronUtils {
  import opened Text

  const ImageExtensions: seq<string> := ["jpg", "jpeg", "png", "gif", "bmp", "svg", "webp"]
  const DocumentExtensions: seq<string> := ["pdf", "doc", "docx", "txt", "rtf", "odt"]
  const CodeExtensions: seq<string> :=
    ["js", "ts", "jsx", "tsx", "py", "java", "cpp", "c", "cs", "php", "rb", "go", "rs", "swift"]

  /** The last `.`-separated segment of the name, lower-cased. `pop` never yields
      `undefined` here because a split has at least one part, and `|| ''` turns the
      empty segment into itself. */
  function GetFileExtension(filename: string): (ext: string)
    ensures ext == ToLower(filename[LastIndexOf(filename, '.') + 1..])
    ensures '.' !in ext && IsLower(ext)
    ensures '.' !in filename ==> ext == ToLower(filename)
    ensures |filename| > 0 && filename[|filename| - 1] == '.' ==> ext == ""
  {
    var parts := Split(filename, '.');
    LastOfSplit(filename, '.');
    LastIndexOfAbsent(filename, '.');
    ToLowerIsLower(filename[LastIndexOf(filename, '.') + 1..]);
    ToLower(parts[|parts| - 1])
  }

  predicate IsImageFile(filename: string) {
    GetFileExtension(filename) in ImageExtensions
  }

  predicate IsDocumentFile(filename: string) {
    GetFileExtension(filename) in DocumentExtensions
  }

  predicate IsCodeFile(filename: string) {
    GetFileExtension(filename) in CodeExtensions
  }

  /** No extension is in two of the three lists, so at most one predicate holds. */
  lemma ClassesDisjoint(filename: string)
    ensures !(IsImageFile(filename) && IsDocumentFile(filename))
    ensures !(IsImageFile(filename) && IsCodeFile(filename))
    ensures !(IsDocumentFile(filename) && IsCodeFile(filename))
  {
    var e := GetFileExtension(filename);
    ListsDisjoint();
    if e in ImageExtensions {
      var i :| 0 <= i < |ImageExtensions| && ImageExtensions[i] == e;
    }
    if e in DocumentExtensions {
      var i :| 0 <= i < |DocumentExtensions| && DocumentExtensions[i] == e;
    }
  }

  lemma ListsDisjoint()
    ensures forall i :: 0 <= i < |ImageExtensions| ==> ImageExtensions[i] !in DocumentExtensions
    ensures forall i :: 0 <= i < |ImageExtensions| ==> ImageExtensions[i] !in CodeExtensions
    ensures forall i :: 0 <= i < |DocumentExtensions| ==> DocumentExtensions[i] !in CodeExtensions
  {
  }

  /** The classification ignores the case of the name. */
  lemma ClassesIgnoreCase(filename: string)
    ensures GetFileExtension(ToLower(filename)) == GetFileExtension(filename)
    ensures IsImageFile(ToLower(filename)) == IsImageFile(filename)
    ensures IsDocumentFile(ToLower(filename)) == IsDocumentFile(filename)
    ensures IsCodeFile(ToLower(filename)) == IsCodeFile(filename)
  {
    ExtensionIgnoresCase(filename);
  }

  lemma ExtensionIgnoresCase(filename: string)
    ensures GetFileExtension(ToLower(filename)) == GetFileExtension(filename)
  {
    var lower := ToLower(filename);
    var k := LastIndexOf(filename, '.');
    ToLowerKeepsChar(filename, '.');
    assert LastIndexOf(lower, '.') == k by {
      LastIndexOfAbsent(filename, '.');
      LastIndexOfAbsent(lower, '.');
      var k' := LastIndexOf(lower, '.');
      if k >= 0 { assert lower[k] == '.'; }
      if k' >= 0 { assert filename[k'] == '.'; }
    }
    assert lower[k + 1..] == ToLower(filename[k + 1..]);
    ToLowerIsLower(filename[k + 1..]);
  }

  /** A name without a dot is classified by the whole name: a file called `go` is code. */
  lemma WholeNameIsExtension(filename: string)
    requires '.' !in filename
    ensures IsCodeFile(filename) <==> ToLower(filename) in CodeExtensions
    ensures IsCodeFile("go") && IsCodeFile("Go")
  {
    assert '.' !in "go" && '.' !in "Go";
    assert ToLower("Go") == "go";
    ToLowerOfLower("go");
    assert "go" == CodeExtensions[11];
  }
}
