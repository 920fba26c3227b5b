/** The four tables of the store and the integrity rules their schema
    declares: primary keys, the UNIQUE tag name, the foreign keys, and the
    AUTOINCREMENT counter behind tag ids. */
module Schema {
  import opened Types
  import opened Sql

  /** The constraint a failed statement reports. `Full` is SQLite's answer
      when AUTOINCREMENT has no id left to hand out. */
  datatype DbError = PrimaryKeyViolation | UniqueViolation | ForeignKeyViolation | Full

  /** What a statement or a transaction gives back: a value, or the error
      that aborted it. */
  datatype Result<T> = Ok(value: T) | Err(error: DbError)

  /** The largest rowid SQLite hands out (a signed 64-bit integer). */
  const MaxRowid: int := 0x7FFF_FFFF_FFFF_FFFF

  /** The whole store. Each table is a sequence of rows in insertion order;
      `tagSeq` is the `sqlite_sequence` entry of `tags`, the largest tag id
      ever stored, which AUTOINCREMENT never hands out again. */
  datatype Tables = Tables(
    prompts: seq<Prompt>,
    blocks: seq<Block>,
    tags: seq<Tag>,
    links: seq<PromptTag>,
    tagSeq: int)

  /** A freshly created store. */
  const Empty: Tables := Tables([], [], [], [], 0)

  function PromptKey(p: Prompt): string { p.id }
  function BlockKey(b: Block): string { b.id }
  function TagIdKey(tg: Tag): int { tg.id }
  function TagNameKey(tg: Tag): string { tg.name }

  function PromptIds(ps: seq<Prompt>): set<string> { KeySet(ps, PromptKey) }
  function BlockIds(bs: seq<Block>): set<string> { KeySet(bs, BlockKey) }
  function TagIds(ts: seq<Tag>): set<int> { KeySet(ts, TagIdKey) }
  function TagNames(ts: seq<Tag>): set<string> { KeySet(ts, TagNameKey) }

  /** PRIMARY KEY on prompts.id, prompt_blocks.id, tags.id and on the pair
      (prompt_id, tag_id) of prompt_tags; UNIQUE on tags.name. */
  ghost predicate KeysHold(t: Tables) {
    && DistinctBy(t.prompts, PromptKey)
    && DistinctBy(t.blocks, BlockKey)
    && DistinctBy(t.tags, TagIdKey)
    && DistinctBy(t.tags, TagNameKey)
    && Distinct(t.links)
  }

  /** The foreign keys: a block names a live prompt, a link a live prompt
      and a live tag. */
  ghost predicate ReferencesHold(t: Tables) {
    && (forall b :: b in t.blocks ==> b.promptId in PromptIds(t.prompts))
    && (forall l :: l in t.links ==> l.promptId in PromptIds(t.prompts) && l.tagId in TagIds(t.tags))
  }

  /** The AUTOINCREMENT counter is at least every tag id in use. */
  ghost predicate CounterHolds(t: Tables) {
    && 0 <= t.tagSeq
    && forall tg :: tg in t.tags ==> tg.id <= t.tagSeq
  }

  /** Every integrity rule of the schema. */
  ghost predicate Valid(t: Tables) {
    KeysHold(t) && ReferencesHold(t) && CounterHolds(t)
  }

  /** Keys of a concatenation of tables. */
  lemma KeySetConcat<T, K>(a: seq<T>, b: seq<T>, key: T -> K)
    ensures KeySet(a + b, key) == KeySet(a, key) + KeySet(b, key)
  {
    forall k | k in KeySet(a + b, key) ensures k in KeySet(a, key) + KeySet(b, key) {
      var x :| x in a + b && key(x) == k;
      if x in a {
        assert k in KeySet(a, key);
      } else {
        assert x in b;
        assert k in KeySet(b, key);
      }
    }
    forall k | k in KeySet(a, key) + KeySet(b, key) ensures k in KeySet(a + b, key) {
      if k in KeySet(a, key) {
        var x :| x in a && key(x) == k;
        assert x in a + b;
      } else {
        var x :| x in b && key(x) == k;
        assert x in a + b;
      }
    }
  }
}
