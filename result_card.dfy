/** One search result and the two pieces of card logic that classify it
    (`polymet-fainder/src/polymet/components/result-card.tsx`). */
module ResultCard {
  import opened Wrappers
  import opened Text

  /** `FileResult`; `modified` is the date as milliseconds since the epoch, `matches` is
      optional in the source. */
  datatype FileResult = FileResult(id: string, name: string, path: string, fileType: string, size: int,
                                   modified: int, matches: Option<seq<string>>)

  datatype Icon = FolderIcon | ImageIcon | VideoIcon | MusicIcon | ArchiveIcon | FileTextIcon | FileIcon

  /** `getFileIcon`: the first rule whose keyword occurs in the lower-cased type. */
  function GetFileIcon(fileType: string): Icon {
    var t := ToLower(fileType);
    if Contains(t, "folder") || Contains(t, "directory") then FolderIcon
    else if Contains(t, "image") then ImageIcon
    else if Contains(t, "video") then VideoIcon
    else if Contains(t, "audio") then MusicIcon
    else if Contains(t, "zip") || Contains(t, "archive") then ArchiveIcon
    else if Contains(t, "text") || Contains(t, "document") then FileTextIcon
    else FileIcon
  }

  /** The rules as a table, in the order they are tried. */
  const IconRules: seq<(seq<string>, Icon)> := [
    (["folder", "directory"], FolderIcon), (["image"], ImageIcon), (["video"], VideoIcon),
    (["audio"], MusicIcon), (["zip", "archive"], ArchiveIcon), (["text", "document"], FileTextIcon)
  ]

  /** Some keyword of the rule occurs in `t`. */
  predicate RuleMatches(keywords: seq<string>, t: string)
    decreases |keywords|
  {
    |keywords| > 0 && (Contains(t, keywords[0]) || RuleMatches(keywords[1..], t))
  }

  /** Reference reading of the rules: the icon of the first rule from `from` on that matches. */
  function FirstMatch(rules: seq<(seq<string>, Icon)>, t: string): Icon
    decreases |rules|
  {
    if |rules| == 0 then FileIcon
    else if RuleMatches(rules[0].0, t) then rules[0].1
    else FirstMatch(rules[1..], t)
  }

  /** The classification is the first matching rule of the table, and it ignores case. */
  lemma GetFileIconSpec(fileType: string)
    ensures GetFileIcon(fileType) == FirstMatch(IconRules, ToLower(fileType))
    ensures GetFileIcon(ToLower(fileType)) == GetFileIcon(fileType)
  {
    ToLowerIsLower(fileType);
    var t := ToLower(fileType);
    assert RuleMatches(IconRules[0].0, t) <==> Contains(t, "folder") || Contains(t, "directory");
    assert RuleMatches(IconRules[4].0, t) <==> Contains(t, "zip") || Contains(t, "archive");
    assert RuleMatches(IconRules[5].0, t) <==> Contains(t, "text") || Contains(t, "document");
    assert IconRules[1..][1..][1..][1..][1..][1..] == [];
  }

  /** The first rule wins: a type naming both a folder and an image shows the folder icon. */
  lemma FolderBeatsImage()
    ensures GetFileIcon("Image Folder") == FolderIcon
  {
    var t := ToLower("Image Folder");
    assert t == "image folder";
    assert t[6..] == "folder";
    ContainsIff(t, "folder");
    assert OccursAt(t, "folder", 6);
  }

  datatype SizeUnit = Bytes | Kilobytes | Megabytes | Gigabytes

  /** What `formatFileSize` shows: the integer in bytes, or a scaled amount in a unit (the
      two-decimal rendering of the scaled amount is left out). */
  datatype SizeText = Exact(text: string) | Scaled(amount: real, unit: SizeUnit)

  /** `formatFileSize`, with the source's divisions and comparisons on real numbers. */
  function FormatFileSize(bytes: int): SizeText {
    if bytes < 1024 then Exact(IntToString(bytes) + " B")
    else
      var kb := bytes as real / 1024.0;
      if kb < 1024.0 then Scaled(kb, Kilobytes)
      else
        var mb := kb / 1024.0;
        if mb < 1024.0 then Scaled(mb, Megabytes)
        else Scaled(mb / 1024.0, Gigabytes)
  }

  /** The unit thresholds are exact powers of two on the byte count, and each scaled amount is
      the byte count over its unit, at least 1 and (below GB) under 1024. */
  lemma FormatFileSizeUnits(bytes: int)
    ensures FormatFileSize(bytes).Exact? <==> bytes < 1024
    ensures FormatFileSize(bytes).Exact? ==> FormatFileSize(bytes).text == IntToString(bytes) + " B"
    ensures FormatFileSize(bytes) == Scaled(bytes as real / 1024.0, Kilobytes) <==> 1024 <= bytes < 1048576
    ensures FormatFileSize(bytes) == Scaled(bytes as real / 1048576.0, Megabytes)
      <==> 1048576 <= bytes < 1073741824
    ensures FormatFileSize(bytes) == Scaled(bytes as real / 1073741824.0, Gigabytes) <==> 1073741824 <= bytes
    ensures FormatFileSize(bytes).Scaled? ==>
      1.0 <= FormatFileSize(bytes).amount && (FormatFileSize(bytes).unit != Gigabytes ==> FormatFileSize(bytes).amount < 1024.0)
  {
    var b := bytes as real;
    assert b / 1024.0 / 1024.0 == b / 1048576.0;
    assert b / 1024.0 / 1024.0 / 1024.0 == b / 1073741824.0;
  }
}
