/** The block list of the stand-alone search page (`project-1749984823338/app/page.tsx`): blocks
    carry a numeric id, a type, the label and placeholder looked up for that type, and a value. */
module SearchPage {
  import opened Wrappers
  import opened Seqs

  datatype PageBlock = PageBlock(id: int, blockType: string, labelText: string, value: string, placeholder: string)

  /** The state the page starts with: one text block. */
  const InitialBlocks: seq<PageBlock> := [PageBlock(1, "text", "Text contains", "", "Enter search text...")]

  /** `blockTypes`: the types the add buttons offer, with their labels (the icons are left out). */
  const BlockTypes: seq<(string, string)> := [
    ("text", "Text contains"), ("filetype", "File type"), ("folder", "In folder"),
    ("date", "Modified after"), ("size", "File size"), ("regex", "Regex pattern")
  ]

  /** The placeholder table of `getPlaceholder`. */
  const Placeholders: map<string, string> := map[
    "text" := "Enter search text...", "filetype" := "e.g., .pdf, .docx, .txt",
    "folder" := "Select folder path...", "date" := "Select date...",
    "size" := "e.g., >1MB, <500KB", "regex" := "Enter regex pattern..."
  ]

  /** `types.find((b) => b.type === t)?.label`. */
  function FindLabel(types: seq<(string, string)>, t: string): (r: Option<string>)
    ensures r.None? <==> forall i :: 0 <= i < |types| ==> types[i].0 != t
    ensures r.Some? ==> exists i :: 0 <= i < |types| && types[i].0 == t && types[i].1 == r.value
                                    && forall j :: 0 <= j < i ==> types[j].0 != t
  {
    if |types| == 0 then None
    else if types[0].0 == t then Some(types[0].1)
    else
      var r := FindLabel(types[1..], t);
      if r.Some? then
        var i :| 0 <= i < |types[1..]| && types[1..][i].0 == t && types[1..][i].1 == r.value
                 && forall j :: 0 <= j < i ==> types[1..][j].0 != t;
        assert types[i + 1] == types[1..][i];
        r
      else r
  }

  /** The label of a new block: the table's label, or `Filter` when the table has none (or an
      empty one). */
  function Label(t: string): string {
    var found := FindLabel(BlockTypes, t);
    if found.Some? && found.value != "" then found.value else "Filter"
  }

  /** `getPlaceholder`: the table's entry, or `Enter value...` when there is none (or an empty
      one). */
  function Placeholder(t: string): string {
    if t in Placeholders && Placeholders[t] != "" then Placeholders[t] else "Enter value..."
  }

  /** The label falls back to `Filter` exactly for the types the table does not list. */
  lemma LabelFallback(t: string)
    ensures Label(t) == "Filter" <==> forall i :: 0 <= i < |BlockTypes| ==> BlockTypes[i].0 != t
  {
    var r := FindLabel(BlockTypes, t);
    if r.Some? {
      var k :| 0 <= k < |BlockTypes| && BlockTypes[k].0 == t && BlockTypes[k].1 == r.value;
      assert r.value != "Filter" && r.value != "";
    }
  }

  /** The placeholder falls back to `Enter value...` exactly for the types the table does not
      list. */
  lemma PlaceholderFallback(t: string)
    ensures Placeholder(t) == "Enter value..." <==> t !in Placeholders
  {
  }

  /** The lookup finds the first entry of the type. */
  lemma {:induction false} FindLabelAt(types: seq<(string, string)>, i: nat)
    requires i < |types|
    requires forall j :: 0 <= j < i ==> types[j].0 != types[i].0
    ensures FindLabel(types, types[i].0) == Some(types[i].1)
  {
    if i > 0 {
      FindLabelAt(types[1..], i - 1);
    }
  }

  /** No type is listed twice in `blockTypes`. */
  lemma BlockTypesDistinct()
    ensures forall i, j :: 0 <= j < i < |BlockTypes| ==> BlockTypes[j].0 != BlockTypes[i].0
  {
  }

  /** Every type an add button offers has its own label and a placeholder, so the fallbacks never
      occur from the page itself. */
  lemma OfferedTypeListed(i: nat)
    requires i < |BlockTypes|
    ensures Label(BlockTypes[i].0) == BlockTypes[i].1 && BlockTypes[i].0 in Placeholders
  {
    OfferedTypeLabelled(i);
    assert BlockTypes[i].0 in Placeholders by {
      OfferedTypePlaceheld(i);
    }
  }

  lemma OfferedTypeLabelled(i: nat)
    requires i < |BlockTypes|
    ensures Label(BlockTypes[i].0) == BlockTypes[i].1
  {
    BlockTypesDistinct();
    FindLabelAt(BlockTypes, i);
  }

  lemma OfferedTypePlaceheld(i: nat)
    requires i < |BlockTypes|
    ensures BlockTypes[i].0 in Placeholders
  {
  }

  /** `addBlock`: one block of the given type with an empty value, at the end; `Date.now()` is
      the parameter `now`. */
  function AddBlock(blocks: seq<PageBlock>, t: string, now: int): (r: seq<PageBlock>)
    ensures |r| == |blocks| + 1 && r[..|blocks|] == blocks
    ensures r[|blocks|] == PageBlock(now, t, Label(t), "", Placeholder(t))
  {
    blocks + [PageBlock(now, t, Label(t), "", Placeholder(t))]
  }

  /** `removeBlock`. */
  function RemoveBlock(blocks: seq<PageBlock>, id: int): seq<PageBlock> {
    Filter(blocks, OtherId(id))
  }

  /** The test `removeBlock` keeps a block by. */
  function OtherId(id: int): PageBlock -> bool {
    (b: PageBlock) => b.id != id
  }

  /** `updateBlock`: only the value of the blocks carrying `id` changes. */
  function UpdateBlock(blocks: seq<PageBlock>, id: int, value: string): (r: seq<PageBlock>)
    ensures |r| == |blocks|
    ensures forall i :: 0 <= i < |blocks| ==>
      r[i] == if blocks[i].id == id then blocks[i].(value := value) else blocks[i]
  {
    Map(blocks, (b: PageBlock) => if b.id == id then b.(value := value) else b)
  }

  /** The remove button is shown only while there is more than one block. */
  predicate CanRemove(blocks: seq<PageBlock>) {
    |blocks| > 1
  }

  predicate DistinctIds(blocks: seq<PageBlock>) {
    forall i, j :: 0 <= i < j < |blocks| ==> blocks[i].id != blocks[j].id
  }

  /** Removing drops every block with the id and keeps the rest in order; while ids are distinct,
      that is exactly one block, so a remove the page offers never empties the list. */
  lemma RemoveBlockSpec(blocks: seq<PageBlock>, id: int)
    ensures forall b :: b in RemoveBlock(blocks, id) <==> b in blocks && b.id != id
    ensures IsSubsequence(RemoveBlock(blocks, id), blocks)
    ensures forall b :: multiset(RemoveBlock(blocks, id))[b] == if b.id != id then multiset(blocks)[b] else 0
    ensures DistinctIds(blocks) && CanRemove(blocks) && (exists j :: 0 <= j < |blocks| && blocks[j].id == id)
      ==> |RemoveBlock(blocks, id)| == |blocks| - 1 >= 1
  {
    var p := OtherId(id);
    forall b ensures b in RemoveBlock(blocks, id) <==> b in blocks && b.id != id {
      FilterMember(blocks, p, b);
    }
    FilterIsSubsequence(blocks, p);
    FilterMultiset(blocks, p);
    RemoveOffered(blocks, id);
  }

  /** A remove the page offers, of an id some block carries, leaves one block fewer and at
      least one, while ids are distinct. */
  lemma RemoveOffered(blocks: seq<PageBlock>, id: int)
    ensures DistinctIds(blocks) && CanRemove(blocks) && (exists j :: 0 <= j < |blocks| && blocks[j].id == id)
      ==> |RemoveBlock(blocks, id)| == |blocks| - 1 >= 1
  {
    if DistinctIds(blocks) && exists j :: 0 <= j < |blocks| && blocks[j].id == id {
      var j :| 0 <= j < |blocks| && blocks[j].id == id;
      RemoveOneBlock(blocks, id, j);
    }
  }

  /** While ids are distinct, removing the id of block `j` drops that block and no other. */
  lemma RemoveOneBlock(blocks: seq<PageBlock>, id: int, j: nat)
    requires DistinctIds(blocks) && j < |blocks| && blocks[j].id == id
    ensures RemoveBlock(blocks, id) == blocks[..j] + blocks[j + 1..]
  {
    FilterOneFails(blocks, OtherId(id), j);
  }

  /** The initial state has one block, so it offers no remove. */
  lemma InitialState()
    ensures |InitialBlocks| == 1 && !CanRemove(InitialBlocks)
    ensures InitialBlocks[0].labelText == Label("text") && InitialBlocks[0].placeholder == Placeholder("text")
  {
    OfferedTypeListed(0);
    assert BlockTypes[0].0 == "text";
  }
}
