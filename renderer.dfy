/** The filename helpers of the Electron renderer script (`electron-app/src/renderer.ts`). */
module Renderer {
  import opened Text

  /** The characters `/[<>:"|?*]/` rejects. */
  const InvalidPathChars: set<char> := {'<', '>', ':', '"', '|', '?', '*'}

  /** `invalidChars.test(s)`: some character of `s` is one of the rejected ones. */
  predicate HasInvalidChar(s: string)
    decreases |s|
  {
    |s| > 0 && (s[0] in InvalidPathChars || HasInvalidChar(s[1..]))
  }

  lemma {:induction false} HasInvalidCharIff(s: string)
    ensures HasInvalidChar(s) <==> exists i :: 0 <= i < |s| && s[i] in InvalidPathChars
    decreases |s|
  {
    if |s| > 0 {
      HasInvalidCharIff(s[1..]);
      if exists i :: 0 <= i < |s| && s[i] in InvalidPathChars {
        var i :| 0 <= i < |s| && s[i] in InvalidPathChars;
        if i > 0 { assert s[1..][i - 1] == s[i]; }
      }
    }
  }

  /** `isValidPath`: the empty string is rejected, and so is any path holding one of
      `< > : " | ? *`. */
  function IsValidPath(path: string): (ok: bool)
    ensures ok <==> |path| > 0 && forall i :: 0 <= i < |path| ==> path[i] !in InvalidPathChars
  {
    HasInvalidCharIff(path);
    path != "" && !HasInvalidChar(path)
  }

  /** `getFileExtension`: the lower-cased text after the last dot, provided that dot is
      not the first character; otherwise the empty string. */
  function GetFileExtension(filename: string): (ext: string)
    ensures '.' !in ext && IsLower(ext)
    ensures '.' !in filename ==> ext == ""
    ensures |filename| > 0 && filename[0] == '.' && '.' !in filename[1..] ==> ext == ""
    ensures forall k :: 0 < k < |filename| && filename[k] == '.' && '.' !in filename[k + 1..] ==>
      ext == ToLower(filename[k + 1..])
  {
    var lastDot := LastIndexOf(filename, '.');
    LastIndexOfAbsent(filename, '.');
    ToLowerIsLower(filename[lastDot + 1..]);
    LastDotUnique(filename, lastDot);
    if lastDot > 0 then ToLower(filename[lastDot + 1..]) else ""
  }

  /** A dot with no dot after it is the one `lastIndexOf` finds. */
  lemma LastDotUnique(s: string, k: int)
    requires k == LastIndexOf(s, '.')
    ensures forall j :: 0 <= j < |s| && s[j] == '.' && '.' !in s[j + 1..] ==> j == k
  {
  }

  /** The lists of the category table. Each list is only ever asked `includes`, so it is kept
      as the set of its entries. */
  const ImageExts: set<string> := {"jpg", "jpeg", "png", "gif", "bmp", "svg", "webp", "ico"}
  const VideoExts: set<string> := {"mp4", "avi", "mkv", "mov", "wmv", "flv", "webm"}
  const AudioExts: set<string> := {"mp3", "wav", "flac", "aac", "ogg", "wma"}
  const DocumentExts: set<string> := {"pdf", "doc", "docx", "txt", "rtf", "odt"}
  const SpreadsheetExts: set<string> := {"xls", "xlsx", "csv", "ods"}
  const PresentationExts: set<string> := {"ppt", "pptx", "odp"}
  const ArchiveExts: set<string> := {"zip", "rar", "7z", "tar", "gz", "bz2"}
  const CodeExts: set<string> := {"js", "ts", "jsx", "tsx", "html", "css", "scss", "json", "xml", "py", "java",
                                  "cpp", "c", "h", "php", "rb", "go", "rs", "swift", "kt"}

  /** The category table, in the order `Object.entries` visits it. */
  const Categories: seq<(string, set<string>)> := [
    ("image", ImageExts), ("video", VideoExts), ("audio", AudioExts), ("document", DocumentExts),
    ("spreadsheet", SpreadsheetExts), ("presentation", PresentationExts), ("archive", ArchiveExts),
    ("code", CodeExts)
  ]

  /** The name of the first category from index `from` on whose list holds `ext`, or
      `other`. */
  function CategoryFrom(ext: string, from: nat): (name: string)
    requires from <= |Categories|
    ensures name == "other" <==> forall j :: from <= j < |Categories| ==> ext !in Categories[j].1
    ensures name != "other" ==>
      exists j :: from <= j < |Categories| && Categories[j].0 == name && ext in Categories[j].1
    decreases |Categories| - from
  {
    CategoryNames();
    if from == |Categories| then "other"
    else if ext in Categories[from].1 then Categories[from].0
    else CategoryFrom(ext, from + 1)
  }

  /** The category names are distinct, and none is `other`. */
  lemma CategoryNames()
    ensures forall j :: 0 <= j < |Categories| ==> Categories[j].0 != "other"
    ensures forall i, j :: 0 <= i < j < |Categories| ==> Categories[i].0 != Categories[j].0
  {
  }

  /** An extension of one list is in none of the lists after it. */
  lemma ImageListedOnce(x: string)
    requires x in ImageExts
    ensures x !in VideoExts && x !in AudioExts && x !in DocumentExts && x !in SpreadsheetExts && x !in PresentationExts && x !in ArchiveExts && x !in CodeExts
  {
  }

  lemma VideoListedOnce(x: string)
    requires x in VideoExts
    ensures x !in AudioExts && x !in DocumentExts && x !in SpreadsheetExts && x !in PresentationExts && x !in ArchiveExts && x !in CodeExts
  {
  }

  lemma AudioListedOnce(x: string)
    requires x in AudioExts
    ensures x !in DocumentExts && x !in SpreadsheetExts && x !in PresentationExts && x !in ArchiveExts && x !in CodeExts
  {
  }

  lemma DocumentListedOnce(x: string)
    requires x in DocumentExts
    ensures x !in SpreadsheetExts && x !in PresentationExts && x !in ArchiveExts && x !in CodeExts
  {
  }

  lemma SpreadsheetListedOnce(x: string)
    requires x in SpreadsheetExts
    ensures x !in PresentationExts && x !in ArchiveExts && x !in CodeExts
  {
  }

  lemma PresentationListedOnce(x: string)
    requires x in PresentationExts
    ensures x !in ArchiveExts && x !in CodeExts
  {
  }

  lemma ArchiveListedOnce(x: string)
    requires x in ArchiveExts
    ensures x !in CodeExts
  {
  }

  /** No extension is listed under two categories. */
  lemma CategoriesDisjoint()
    ensures forall i, j, x :: 0 <= i < j < |Categories| && x in Categories[i].1 ==> x !in Categories[j].1
  {
    forall i, j, x | 0 <= i < j < |Categories| && x in Categories[i].1 ensures x !in Categories[j].1 {
      if i == 0 {
        ImageListedOnce(x);
      } else if i == 1 {
        VideoListedOnce(x);
      } else if i == 2 {
        AudioListedOnce(x);
      } else if i == 3 {
        DocumentListedOnce(x);
      } else if i == 4 {
        SpreadsheetListedOnce(x);
      } else if i == 5 {
        PresentationListedOnce(x);
      } else if i == 6 {
        ArchiveListedOnce(x);
      }
    }
  }

  /** Since the lists are disjoint, the category found is the one and only category
      whose list holds the extension. */
  lemma CategoryUnique(ext: string)
    ensures forall j :: 0 <= j < |Categories| ==>
      (ext in Categories[j].1 <==> Categories[j].0 == CategoryFrom(ext, 0))
  {
    var name := CategoryFrom(ext, 0);
    CategoryNames();
    CategoriesDisjoint();
    forall j | 0 <= j < |Categories|
      ensures ext in Categories[j].1 <==> Categories[j].0 == name
    {
      if ext in Categories[j].1 {
        var i :| 0 <= i < |Categories| && Categories[i].0 == name && ext in Categories[i].1;
        if i != j {
          assert false;
        }
      }
    }
  }

  /** `getFileTypeCategory`: walks the table in order and returns the first category
      whose list holds the lower-cased extension, or `other`. */
  method GetFileTypeCategory(extension: string) returns (category: string)
    ensures category == CategoryFrom(ToLower(extension), 0)
    ensures category == "other" <==>
      forall j :: 0 <= j < |Categories| ==> ToLower(extension) !in Categories[j].1
  {
    var ext := ToLower(extension);
    var i := 0;
    while i < |Categories|
      invariant 0 <= i <= |Categories|
      invariant CategoryFrom(ext, i) == CategoryFrom(ext, 0)
    {
      if ext in Categories[i].1 {
        return Categories[i].0;
      }
      i := i + 1;
    }
    return "other";
  }
}
