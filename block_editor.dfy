/** The block list of the visual query builder
    (`polymet-fainder/src/polymet/components/block-editor.tsx`). Every handler computes the new
    list and hands exactly that list to both `setBlocks` and `onChange`, so each handler is
    modelled as the function giving the new list. */
module BlockEditor {
  import opened Wrappers
  import opened Seqs
  import opened SearchBlock

  /** The block `handleAddBlock` creates under the id the caller generated. */
  function NewBlock(id: string): SearchBlockData {
    SearchBlockData(id, "text", "",
                    Some(map["caseSensitive" := Flag(false), "regex" := Flag(false), "wholeWord" := Flag(false)]))
  }

  /** `handleAddBlock`: one text block with an empty value and the three options off, at the end. */
  function AddBlock(blocks: seq<SearchBlockData>, newId: string): (r: seq<SearchBlockData>)
    ensures |r| == |blocks| + 1 && r[..|blocks|] == blocks
    ensures var b := r[|blocks|];
      && b.id == newId && b.blockType == "text" && b.value == "" && b.options.Some?
      && b.options.value.Keys == {"caseSensitive", "regex", "wholeWord"}
      && (forall k :: k in b.options.value ==> b.options.value[k] == Flag(false))
  {
    blocks + [NewBlock(newId)]
  }

  /** `handleUpdateBlock`: the patch is merged into the blocks carrying `id`, and only those. */
  function UpdateBlock(blocks: seq<SearchBlockData>, id: string, patch: BlockPatch): (r: seq<SearchBlockData>)
    ensures |r| == |blocks|
    ensures forall i :: 0 <= i < |blocks| && blocks[i].id != id ==> r[i] == blocks[i]
    ensures forall i :: 0 <= i < |blocks| && blocks[i].id == id ==> r[i] == ApplyPatch(blocks[i], patch)
  {
    Map(blocks, (b: SearchBlockData) => if b.id == id then ApplyPatch(b, patch) else b)
  }

  /** An update for an id no block carries, or with the empty patch, leaves the list as it was;
      an update sent by a block's own handler reaches that block. */
  lemma UpdateLaws(blocks: seq<SearchBlockData>, id: string, patch: BlockPatch)
    ensures (forall i :: 0 <= i < |blocks| ==> blocks[i].id != id) ==> UpdateBlock(blocks, id, patch) == blocks
    ensures UpdateBlock(blocks, id, NoChange) == blocks
    ensures forall j, v :: 0 <= j < |blocks| ==>
      var u := ValueChange(blocks[j], v);
      UpdateBlock(blocks, u.target, u.patch)[j] == blocks[j].(value := v)
  {
    forall j, v | 0 <= j < |blocks|
      ensures var u := ValueChange(blocks[j], v); UpdateBlock(blocks, u.target, u.patch)[j] == blocks[j].(value := v)
    {
      var u := ValueChange(blocks[j], v);
      assert blocks[j].id == u.target;
    }
  }

  /** `handleRemoveBlock`. */
  function RemoveBlock(blocks: seq<SearchBlockData>, id: string): seq<SearchBlockData> {
    Filter(blocks, (b: SearchBlockData) => b.id != id)
  }

  /** Removing drops every block carrying `id` and keeps the others in their order. */
  lemma RemoveBlockSpec(blocks: seq<SearchBlockData>, id: string)
    ensures forall b :: b in RemoveBlock(blocks, id) <==> b in blocks && b.id != id
    ensures IsSubsequence(RemoveBlock(blocks, id), blocks)
    ensures forall b :: multiset(RemoveBlock(blocks, id))[b] == if b.id != id then multiset(blocks)[b] else 0
  {
    forall b ensures b in RemoveBlock(blocks, id) <==> b in blocks && b.id != id {
      FilterMember(blocks, (b: SearchBlockData) => b.id != id, b);
    }
    FilterIsSubsequence(blocks, (b: SearchBlockData) => b.id != id);
    FilterMultiset(blocks, (b: SearchBlockData) => b.id != id);
  }

  /** `items.splice(i, 1)`. */
  function RemoveAt<T>(s: seq<T>, i: nat): seq<T>
    requires i < |s|
  {
    s[..i] + s[i + 1..]
  }

  /** `items.splice(i, 0, x)`. */
  function InsertAt<T>(s: seq<T>, i: nat, x: T): seq<T>
    requires i <= |s|
  {
    s[..i] + [x] + s[i..]
  }

  /** The list after moving the block at `source` to `destination`. */
  function Moved<T>(s: seq<T>, source: nat, destination: nat): seq<T>
    requires source < |s| && destination < |s|
  {
    InsertAt(RemoveAt(s, source), destination, s[source])
  }

  /** Moving the block back to where it came from restores the list. */
  lemma MoveBack<T>(s: seq<T>, source: nat, destination: nat)
    requires source < |s| && destination < |s|
    ensures Moved(Moved(s, source, destination), destination, source) == s
  {
    var m := Moved(s, source, destination);
    var rest := RemoveAt(s, source);
    assert m[destination] == s[source];
    assert RemoveAt(m, destination) == rest;
    assert InsertAt(rest, source, s[source]) == s;
  }

  /** `handleDragEnd`. The drag library reports indices of the list as it is (`source`) and as it
      will be after the move (`destination`); a drop outside the list has no destination. */
  method DragEnd(blocks: seq<SearchBlockData>, source: nat, destination: Option<nat>)
    returns (items: seq<SearchBlockData>)
    requires source < |blocks|
    requires destination.Some? ==> destination.value < |blocks|
    ensures destination.None? ==> items == blocks
    ensures destination.Some? ==>
      && items == Moved(blocks, source, destination.value)
      && |items| == |blocks| && multiset(items) == multiset(blocks)
      && items[destination.value] == blocks[source]
      && RemoveAt(items, destination.value) == RemoveAt(blocks, source)
  {
    if destination.None? {
      return blocks;
    }
    items := blocks;
    var reorderedItem := items[source];
    assert items == items[..source] + [reorderedItem] + items[source + 1..];
    items := RemoveAt(items, source);
    assert multiset(items) + multiset{reorderedItem} == multiset(blocks);
    ghost var rest := items;
    items := InsertAt(items, destination.value, reorderedItem);
    assert rest == rest[..destination.value] + rest[destination.value..];
    assert RemoveAt(items, destination.value) == rest;
  }
}
