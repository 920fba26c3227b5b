/** Records of the prompt manager: the rows of its four tables, the shapes
    callers hand to the data layer, and the shapes it hands back. */
module Types {

  datatype Option<T> = None | Some(value: T) {
    function GetOr(default: T): T {
      if Some? then value else default
    }
  }

  /** The kind of a block: a prose fragment or a code fragment. */
  datatype BlockType = Text | Code

  /** A row of `prompts`. `description`, `clusterGroup` and `clusterKeywords`
      are nullable columns; the two timestamps are seconds since the epoch. */
  datatype Prompt = Prompt(
    id: string,
    title: string,
    description: Option<string>,
    clusterGroup: Option<string>,
    clusterKeywords: Option<string>,
    createdAt: int,
    updatedAt: int)

  /** A row of `prompt_blocks`; it belongs to the prompt `promptId`. */
  datatype Block = Block(
    id: string,
    promptId: string,
    kind: BlockType,
    content: string,
    sortOrder: int,
    metaJson: Option<string>)

  /** A row of `tags`. */
  datatype Tag = Tag(id: int, name: string)

  /** A row of `prompt_tags`: prompt `promptId` carries tag `tagId`. */
  datatype PromptTag = PromptTag(promptId: string, tagId: int)

  /** A prompt together with its blocks and its tags. */
  datatype PromptWithDetails = PromptWithDetails(prompt: Prompt, blocks: seq<Block>, tags: seq<Tag>)

  /** A block as a caller submits it. Every field but `content` may be left
      out; creating a prompt ignores `id`, updating one keeps it when given. */
  datatype BlockInput = BlockInput(
    id: Option<string>,
    kind: Option<BlockType>,
    content: string,
    metaJson: Option<string>)

  /** The argument of prompt creation. A missing block list or tag id list is
      the empty sequence (the data layer treats both alike). */
  datatype CreateRequest = CreateRequest(
    title: string,
    description: Option<string>,
    blocks: seq<BlockInput>,
    tagIds: seq<int>)

  /** The argument of prompt update: `None` is a field left undefined. */
  datatype UpdateRequest = UpdateRequest(
    title: Option<string>,
    description: Option<string>,
    blocks: Option<seq<BlockInput>>,
    tagIds: Option<seq<int>>)

  /** One cluster assignment sent back by the clustering service. */
  datatype ClusterUpdate = ClusterUpdate(id: string, clusterGroup: string, clusterKeywords: Option<string>)

  /** One prompt flattened to text for the clustering service. */
  datatype ClusteringItem = ClusteringItem(id: string, title: string, content: string)

  /** A full export: every prompt with its details, and every tag. */
  datatype Snapshot = Snapshot(prompts: seq<PromptWithDetails>, tags: seq<Tag>)
}
