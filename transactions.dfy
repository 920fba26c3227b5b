/** What each mutating operation of the data layer does to the store, stated
    on whole tables: when its transaction commits and what the tables are
    afterwards. A transaction that does not commit leaves the store as it
    was. The methods of `Store.PromptStore` are proved to do exactly this;
    the lemmas at the end say what it means for callers. */
module Transactions {
  import opened Types
  import opened Sql
  import opened Schema
  import opened Queries

  /** JavaScript's `x || null` on an optional string: a missing and an
      empty string both become NULL. */
  function OrNull(s: Option<string>): Option<string> {
    if s.Some? && s.value != "" then s else None
  }

  /** `block.type || 'text'` */
  function KindOrText(k: Option<BlockType>): BlockType {
    k.GetOr(Text)
  }

  /** WHERE id != x / prompt_id != x / tag_id != x: the rows a DELETE keeps. */
  function PromptNot(id: string): Prompt -> bool { (p: Prompt) => p.id != id }
  function NotOwnedBy(pid: string): Block -> bool { (b: Block) => b.promptId != pid }
  function LinkNotOf(pid: string): PromptTag -> bool { (l: PromptTag) => l.promptId != pid }
  function TagNot(id: int): Tag -> bool { (tg: Tag) => tg.id != id }
  function LinkNotTo(tid: int): PromptTag -> bool { (l: PromptTag) => l.tagId != tid }

  /** The block row inserted for the `index`-th submitted block. */
  function BlockRow(b: BlockInput, id: string, pid: string, index: int): Block {
    Block(id, pid, KindOrText(b.kind), b.content, index, OrNull(b.metaJson))
  }

  /** The rows inserted for a submitted block list: `sort_order` is the
      position in the list. */
  function BlockRows(bs: seq<BlockInput>, ids: seq<string>, pid: string): seq<Block>
    requires |ids| == |bs|
  {
    seq(|bs|, i requires 0 <= i < |bs| => BlockRow(bs[i], ids[i], pid, i))
  }

  /** The link rows inserted for a list of tag ids. */
  function LinkRows(pid: string, tagIds: seq<int>): seq<PromptTag> {
    seq(|tagIds|, i requires 0 <= i < |tagIds| => PromptTag(pid, tagIds[i]))
  }

  // ---------------------------------------------------------------------
  // createPrompt

  /** The prompt row: a falsy description is stored as NULL, both
      timestamps are the insertion time, no cluster yet. */
  function NewPromptRow(id: string, req: CreateRequest, now: int): Prompt {
    Prompt(id, req.title, OrNull(req.description), None, None, now, now)
  }

  /** The insertions of createPrompt all pass their checks: the new prompt
      id is unused, the block ids keep the block key unique, the links keep
      the link key unique and each names an existing tag. (The blocks' and
      links' prompt_id is the new prompt, which exists by then.) */
  ghost predicate CreateCommits(t: Tables, req: CreateRequest, id: string, blockIds: seq<string>)
    requires |blockIds| == |req.blocks|
  {
    && id !in PromptIds(t.prompts)
    && DistinctBy(t.blocks + BlockRows(req.blocks, blockIds, id), BlockKey)
    && Distinct(t.links + LinkRows(id, req.tagIds))
    && (forall l :: l in LinkRows(id, req.tagIds) ==> l.tagId in TagIds(t.tags))
  }

  /** The store once createPrompt has committed. */
  function AfterCreate(t: Tables, req: CreateRequest, id: string, blockIds: seq<string>, now: int): Tables
    requires |blockIds| == |req.blocks|
  {
    t.(prompts := t.prompts + [NewPromptRow(id, req, now)],
       blocks := t.blocks + BlockRows(req.blocks, blockIds, id),
       links := t.links + LinkRows(id, req.tagIds))
  }

  // ---------------------------------------------------------------------
  // updatePrompt

  /** The submitted block list, or none. */
  function BlockList(req: UpdateRequest): seq<BlockInput> {
    req.blocks.GetOr([])
  }

  /** `block.id || uuidv4()`: a caller-given non-empty id is kept, otherwise
      the fresh id supplied for that position is used. */
  function EffectiveIds(bs: seq<BlockInput>, freshIds: seq<string>): seq<string>
    requires |freshIds| == |bs|
  {
    seq(|bs|, i requires 0 <= i < |bs| =>
      if bs[i].id.Some? && bs[i].id.value != "" then bs[i].id.value else freshIds[i])
  }

  /** The UPDATE of the prompt row: only fields given are written, and
      updated_at is refreshed only when the title or description is given. */
  function Touch(p: Prompt, req: UpdateRequest, now: int): Prompt {
    if req.title.None? && req.description.None? then p
    else p.(title := req.title.GetOr(p.title),
            description := if req.description.Some? then req.description else p.description,
            updatedAt := now)
  }

  /** `UPDATE prompts SET ... WHERE id = ?` */
  function TouchRows(ps: seq<Prompt>, id: string, req: UpdateRequest, now: int): seq<Prompt> {
    seq(|ps|, i requires 0 <= i < |ps| => if ps[i].id == id then Touch(ps[i], req, now) else ps[i])
  }

  /** The block rows that replace the prompt's blocks. */
  function ReplacementBlocks(id: string, req: UpdateRequest, freshIds: seq<string>): seq<Block>
    requires |freshIds| == |BlockList(req)|
  {
    BlockRows(BlockList(req), EffectiveIds(BlockList(req), freshIds), id)
  }

  /** The insertions of updatePrompt all pass their checks: once the
      prompt's own blocks are deleted, the new block ids keep the block key
      unique; once its own links are deleted, the new links keep the link
      key unique and name existing tags. */
  ghost predicate UpdateCommits(t: Tables, id: string, req: UpdateRequest, freshIds: seq<string>)
    requires |freshIds| == |BlockList(req)|
  {
    && (req.blocks.Some? ==>
          DistinctBy(Filter(t.blocks, NotOwnedBy(id)) + ReplacementBlocks(id, req, freshIds), BlockKey))
    && (req.tagIds.Some? ==>
          && Distinct(Filter(t.links, LinkNotOf(id)) + LinkRows(id, req.tagIds.value))
          && (forall l :: l in LinkRows(id, req.tagIds.value) ==> l.tagId in TagIds(t.tags)))
  }

  /** The store once updatePrompt on an existing prompt has committed. */
  function AfterUpdate(t: Tables, id: string, req: UpdateRequest, freshIds: seq<string>, now: int): Tables
    requires |freshIds| == |BlockList(req)|
  {
    Tables(
      TouchRows(t.prompts, id, req, now),
      if req.blocks.Some? then Filter(t.blocks, NotOwnedBy(id)) + ReplacementBlocks(id, req, freshIds)
      else t.blocks,
      t.tags,
      if req.tagIds.Some? then Filter(t.links, LinkNotOf(id)) + LinkRows(id, req.tagIds.value)
      else t.links,
      t.tagSeq)
  }

  // ---------------------------------------------------------------------
  // deletePrompt, createTag, deleteTag

  /** The store after `DELETE FROM prompts WHERE id = ?` and its cascades. */
  function AfterDeletePrompt(t: Tables, id: string): Tables {
    t.(prompts := Filter(t.prompts, PromptNot(id)),
       blocks := Filter(t.blocks, NotOwnedBy(id)),
       links := Filter(t.links, LinkNotOf(id)))
  }

  /** The id AUTOINCREMENT hands out, or why the insert fails: no id is
      left, or the name is taken. */
  function CreateTagOutcome(t: Tables, name: string): Result<int> {
    if t.tagSeq >= MaxRowid then Err(Full)
    else if name in TagNames(t.tags) then Err(UniqueViolation)
    else Ok(t.tagSeq + 1)
  }

  /** The store once createTag has inserted its row. */
  function AfterCreateTag(t: Tables, name: string): Tables {
    t.(tags := t.tags + [Tag(t.tagSeq + 1, name)], tagSeq := t.tagSeq + 1)
  }

  /** The store after `DELETE FROM tags WHERE id = ?` and its cascade. */
  function AfterDeleteTag(t: Tables, id: int): Tables {
    t.(tags := Filter(t.tags, TagNot(id)), links := Filter(t.links, LinkNotTo(id)))
  }

  // ---------------------------------------------------------------------
  // importAll

  function TagIdList(ts: seq<Tag>): seq<int> {
    seq(|ts|, i requires 0 <= i < |ts| => ts[i].id)
  }

  /** The links importAll inserts for one exported prompt. */
  function DetailLinks(d: PromptWithDetails): seq<PromptTag> {
    LinkRows(d.prompt.id, TagIdList(d.tags))
  }

  /** The prompt, block and link rows importAll inserts for a list of
      exported prompts, in insertion order. */
  function ImportedPrompts(ds: seq<PromptWithDetails>): seq<Prompt> {
    if ds == [] then [] else ImportedPrompts(ds[..|ds| - 1]) + [ds[|ds| - 1].prompt]
  }

  function ImportedBlocks(ds: seq<PromptWithDetails>): seq<Block> {
    if ds == [] then [] else ImportedBlocks(ds[..|ds| - 1]) + ds[|ds| - 1].blocks
  }

  function ImportedLinks(ds: seq<PromptWithDetails>): seq<PromptTag> {
    if ds == [] then [] else ImportedLinks(ds[..|ds| - 1]) + DetailLinks(ds[|ds| - 1])
  }

  /** The inserts for exported prompt `d`, made after those for `before`,
      pass their checks: its id is new, its block ids are new, each block
      refers to a prompt inserted so far (its own or an earlier one), its
      links are new and each names an imported tag. */
  ghost predicate ImportStep(before: seq<PromptWithDetails>, d: PromptWithDetails, tags: seq<Tag>) {
    && d.prompt.id !in PromptIds(ImportedPrompts(before))
    && DistinctBy(ImportedBlocks(before) + d.blocks, BlockKey)
    && (forall b :: b in d.blocks ==> b.promptId in PromptIds(ImportedPrompts(before) + [d.prompt]))
    && Distinct(ImportedLinks(before) + DetailLinks(d))
    && (forall l :: l in DetailLinks(d) ==> l.tagId in TagIds(tags))
  }

  /** Every exported prompt in turn can be inserted after those before it. */
  ghost predicate PromptsImportable(ds: seq<PromptWithDetails>, tags: seq<Tag>) {
    ds == [] || (PromptsImportable(ds[..|ds| - 1], tags) && ImportStep(ds[..|ds| - 1], ds[|ds| - 1], tags))
  }

  /** importAll commits: the tags keep their key and names unique, and the
      prompts can be inserted one after another. */
  ghost predicate ImportCommits(s: Snapshot) {
    && DistinctBy(s.tags, TagIdKey)
    && DistinctBy(s.tags, TagNameKey)
    && PromptsImportable(s.prompts, s.tags)
  }

  /** An explicit tag id moves the AUTOINCREMENT counter up to it. */
  function MaxTagSeq(tagSeq: int, ts: seq<Tag>): int {
    if ts == [] then tagSeq
    else
      var m := MaxTagSeq(tagSeq, ts[..|ts| - 1]);
      if ts[|ts| - 1].id > m then ts[|ts| - 1].id else m
  }

  /** The store once importAll has committed: the snapshot's rows only. */
  function AfterImport(t: Tables, s: Snapshot): Tables {
    Tables(ImportedPrompts(s.prompts), ImportedBlocks(s.prompts), s.tags,
           ImportedLinks(s.prompts), MaxTagSeq(t.tagSeq, s.tags))
  }

  // ---------------------------------------------------------------------
  // updateClusters

  /** The assignment written last for this id, if any. */
  function LastUpdateFor(us: seq<ClusterUpdate>, id: string): Option<ClusterUpdate> {
    if us == [] then None
    else if us[|us| - 1].id == id then Some(us[|us| - 1])
    else LastUpdateFor(us[..|us| - 1], id)
  }

  /** One cluster UPDATE on a prompt row. */
  function Assign(p: Prompt, u: ClusterUpdate, now: int): Prompt {
    p.(clusterGroup := Some(u.clusterGroup), clusterKeywords := OrNull(u.clusterKeywords), updatedAt := now)
  }

  /** `UPDATE prompts SET cluster_group = ?, cluster_keywords = ?,
      updated_at = unixepoch() WHERE id = ?` for one assignment. */
  function AssignRows(ps: seq<Prompt>, u: ClusterUpdate, now: int): seq<Prompt> {
    seq(|ps|, i requires 0 <= i < |ps| => if ps[i].id == u.id then Assign(ps[i], u, now) else ps[i])
  }

  /** The prompt rows once every assignment has been applied. */
  function AfterClusterUpdates(ps: seq<Prompt>, us: seq<ClusterUpdate>, now: int): seq<Prompt> {
    seq(|ps|, i requires 0 <= i < |ps| =>
      match LastUpdateFor(us, ps[i].id)
      case None => ps[i]
      case Some(u) => Assign(ps[i], u, now))
  }

  /** Running the assignments one UPDATE at a time reaches the state that
      applies, to each row, the last assignment naming it. */
  lemma ClusterUpdateStep(ps: seq<Prompt>, us: seq<ClusterUpdate>, u: ClusterUpdate, now: int)
    ensures AssignRows(AfterClusterUpdates(ps, us, now), u, now) == AfterClusterUpdates(ps, us + [u], now)
  {
    assert (us + [u])[..|us|] == us;
  }
}
