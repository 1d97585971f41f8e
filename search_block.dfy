/** The data of one search block and the updates its handlers send
    (`polymet-fainder/src/polymet/components/search-block.tsx`). */
module SearchBlock {
  import opened Wrappers

  /** A value of the block's `options` record: `boolean | string`. */
  datatype OptionValue = Flag(flag: bool) | Word(word: string)

  type Options = map<string, OptionValue>

  /** `SearchBlockData`; `options` is optional in the source. */
  datatype SearchBlockData = SearchBlockData(id: string, blockType: string, value: string, options: Option<Options>)

  /** `Partial<SearchBlockData>`: every field present or absent. */
  datatype BlockPatch = BlockPatch(id: Option<string>, blockType: Option<string>, value: Option<string>,
                                   options: Option<Options>)

  const NoChange := BlockPatch(None, None, None, None)

  /** `{ ...block, ...patch }`: the fields the patch carries override, the rest are kept. */
  function ApplyPatch(block: SearchBlockData, patch: BlockPatch): SearchBlockData {
    SearchBlockData(patch.id.GetOr(block.id), patch.blockType.GetOr(block.blockType),
                    patch.value.GetOr(block.value), if patch.options.Some? then patch.options else block.options)
  }

  /** `Partial` on the left, then on the right: the right-hand patch wins where both speak. */
  function CombinePatches(p: BlockPatch, q: BlockPatch): BlockPatch {
    BlockPatch(if q.id.Some? then q.id else p.id, if q.blockType.Some? then q.blockType else p.blockType,
               if q.value.Some? then q.value else p.value, if q.options.Some? then q.options else p.options)
  }

  /** The empty patch changes nothing, a patch applied twice is applied once, two patches in a
      row are their combination, and a patch without `id` keeps the block's id. */
  lemma PatchLaws(b: SearchBlockData, p: BlockPatch, q: BlockPatch)
    ensures ApplyPatch(b, NoChange) == b
    ensures ApplyPatch(ApplyPatch(b, p), p) == ApplyPatch(b, p)
    ensures ApplyPatch(ApplyPatch(b, p), q) == ApplyPatch(b, CombinePatches(p, q))
    ensures p.id.None? ==> ApplyPatch(b, p).id == b.id
  {
  }

  /** What a handler hands to `onUpdate`: the id to update and the patch. */
  datatype Update = Update(target: string, patch: BlockPatch)

  /** `handleValueChange`: a patch of `value` only, for this block. */
  function ValueChange(block: SearchBlockData, value: string): (u: Update)
    ensures u.target == block.id
    ensures ApplyPatch(block, u.patch) == block.(value := value)
  {
    Update(block.id, BlockPatch(None, None, Some(value), None))
  }

  /** `handleTypeChange`: the new type, with the value and the options reset. */
  function TypeChange(block: SearchBlockData, blockType: string): (u: Update)
    ensures u.target == block.id
    ensures ApplyPatch(block, u.patch) == SearchBlockData(block.id, blockType, "", Some(map[]))
  {
    Update(block.id, BlockPatch(None, Some(blockType), Some(""), Some(map[])))
  }

  /** `handleOptionChange`: the block's options (`{}` when it has none) with one key set. */
  function OptionChange(block: SearchBlockData, key: string, value: OptionValue): (u: Update)
    ensures u.target == block.id
    ensures var after := ApplyPatch(block, u.patch);
      && after.id == block.id && after.blockType == block.blockType && after.value == block.value
      && after.options.Some?
      && key in after.options.value && after.options.value[key] == value
      && (forall k :: k in after.options.value && k != key <==> block.options.Some? && k in block.options.value && k != key)
      && (forall k :: k != key && block.options.Some? && k in block.options.value
            ==> after.options.value[k] == block.options.value[k])
  {
    var current := block.options.GetOr(map[]);
    Update(block.id, BlockPatch(None, None, None, Some(current[key := value])))
  }
}
