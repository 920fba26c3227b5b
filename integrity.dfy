/** Every transaction that commits keeps every integrity rule of the schema:
    the keys stay unique, the foreign keys point at live rows and the
    AUTOINCREMENT counter stays ahead of the tag ids. */
module Integrity {
  import opened Types
  import opened Sql
  import opened Schema
  import opened Transactions

  lemma SingletonKeys<T, K>(x: T, key: T -> K)
    ensures KeySet([x], key) == {key(x)}
  {
    assert x in [x];
  }

  lemma CreateKeepsValid(t: Tables, req: CreateRequest, id: string, blockIds: seq<string>, now: int)
    requires Valid(t) && |blockIds| == |req.blocks|
    requires CreateCommits(t, req, id, blockIds)
    ensures Valid(AfterCreate(t, req, id, blockIds, now))
  {
    var u := AfterCreate(t, req, id, blockIds, now);
    var row := NewPromptRow(id, req, now);
    DistinctBySnoc(t.prompts, row, PromptKey);
    KeySetConcat(t.prompts, [row], PromptKey);
    SingletonKeys(row, PromptKey);
    assert PromptIds(u.prompts) == PromptIds(t.prompts) + {id};
    forall b | b in u.blocks ensures b.promptId in PromptIds(u.prompts) {
      if b !in t.blocks {
        assert b in BlockRows(req.blocks, blockIds, id);
      }
    }
    forall l | l in u.links ensures l.promptId in PromptIds(u.prompts) && l.tagId in TagIds(u.tags) {
      if l !in t.links {
        assert l in LinkRows(id, req.tagIds);
      }
    }
  }

  lemma UpdateKeepsValid(t: Tables, id: string, req: UpdateRequest, freshIds: seq<string>, now: int)
    requires Valid(t) && |freshIds| == |BlockList(req)|
    requires id in PromptIds(t.prompts)
    requires UpdateCommits(t, id, req, freshIds)
    ensures Valid(AfterUpdate(t, id, req, freshIds, now))
  {
    var u := AfterUpdate(t, id, req, freshIds, now);
    SameKeys(t.prompts, u.prompts, PromptKey);
    forall b | b in u.blocks ensures b.promptId in PromptIds(u.prompts) {
      if b !in t.blocks {
        assert b in ReplacementBlocks(id, req, freshIds);
      }
    }
    forall l | l in u.links ensures l.promptId in PromptIds(u.prompts) && l.tagId in TagIds(u.tags) {
      if l !in t.links {
        assert l in LinkRows(id, req.tagIds.value);
      }
    }
  }

  lemma DeletePromptKeepsValid(t: Tables, id: string)
    requires Valid(t)
    ensures Valid(AfterDeletePrompt(t, id))
  {
    var u := AfterDeletePrompt(t, id);
    FilterDistinctBy(t.prompts, PromptNot(id), PromptKey);
    FilterDistinctBy(t.blocks, NotOwnedBy(id), BlockKey);
    FilterDistinct(t.links, LinkNotOf(id));
    forall pid | pid in PromptIds(t.prompts) && pid != id ensures pid in PromptIds(u.prompts) {
      var p :| p in t.prompts && PromptKey(p) == pid;
      assert p in u.prompts;
    }
  }

  lemma CreateTagKeepsValid(t: Tables, name: string)
    requires Valid(t) && CreateTagOutcome(t, name).Ok?
    ensures Valid(AfterCreateTag(t, name))
  {
    var row := Tag(t.tagSeq + 1, name);
    DistinctBySnoc(t.tags, row, TagIdKey);
    DistinctBySnoc(t.tags, row, TagNameKey);
    KeySetConcat(t.tags, [row], TagIdKey);
  }

  lemma DeleteTagKeepsValid(t: Tables, id: int)
    requires Valid(t)
    ensures Valid(AfterDeleteTag(t, id))
  {
    var u := AfterDeleteTag(t, id);
    FilterDistinctBy(t.tags, TagNot(id), TagIdKey);
    FilterDistinctBy(t.tags, TagNot(id), TagNameKey);
    FilterDistinct(t.links, LinkNotTo(id));
    forall l | l in u.links ensures l.tagId in TagIds(u.tags) {
      var tg :| tg in t.tags && TagIdKey(tg) == l.tagId;
      assert tg in u.tags;
    }
  }

  /** Dropping the last exported prompts leaves an importable list. */
  lemma {:induction false} ImportablePrefix(ds: seq<PromptWithDetails>, n: nat, tags: seq<Tag>)
    requires n <= |ds|
    ensures PromptsImportable(ds, tags) ==> PromptsImportable(ds[..n], tags)
    decreases |ds| - n
  {
    if n < |ds| {
      ImportablePrefix(ds[..|ds| - 1], n, tags);
      assert ds[..|ds| - 1][..n] == ds[..n];
    } else {
      assert ds[..n] == ds;
    }
  }

  /** The rows an importable list inserts satisfy the keys and foreign keys. */
  lemma {:induction false} ImportedValid(ds: seq<PromptWithDetails>, tags: seq<Tag>)
    requires PromptsImportable(ds, tags)
    ensures DistinctBy(ImportedPrompts(ds), PromptKey)
    ensures DistinctBy(ImportedBlocks(ds), BlockKey)
    ensures Distinct(ImportedLinks(ds))
    ensures forall b :: b in ImportedBlocks(ds) ==> b.promptId in PromptIds(ImportedPrompts(ds))
    ensures forall l :: l in ImportedLinks(ds) ==>
      l.promptId in PromptIds(ImportedPrompts(ds)) && l.tagId in TagIds(tags)
  {
    if ds != [] {
      var init, d := ds[..|ds| - 1], ds[|ds| - 1];
      ImportedValid(init, tags);
      var ps := ImportedPrompts(ds);
      DistinctBySnoc(ImportedPrompts(init), d.prompt, PromptKey);
      KeySetConcat(ImportedPrompts(init), [d.prompt], PromptKey);
      SingletonKeys(d.prompt, PromptKey);
      forall l | l in ImportedLinks(ds) ensures l.promptId in PromptIds(ps) && l.tagId in TagIds(tags) {
        if l !in ImportedLinks(init) {
          assert l in DetailLinks(d);
        }
      }
    }
  }

  lemma {:induction false} MaxTagSeqBounds(tagSeq: int, ts: seq<Tag>)
    ensures MaxTagSeq(tagSeq, ts) >= tagSeq
    ensures forall tg :: tg in ts ==> tg.id <= MaxTagSeq(tagSeq, ts)
  {
    if ts != [] {
      MaxTagSeqBounds(tagSeq, ts[..|ts| - 1]);
      assert ts == ts[..|ts| - 1] + [ts[|ts| - 1]];
    }
  }

  lemma ImportKeepsValid(t: Tables, s: Snapshot)
    requires Valid(t) && ImportCommits(s)
    ensures Valid(AfterImport(t, s))
  {
    ImportedValid(s.prompts, s.tags);
    MaxTagSeqBounds(t.tagSeq, s.tags);
  }

  lemma ClusterUpdatesKeepValid(t: Tables, us: seq<ClusterUpdate>, now: int)
    requires Valid(t)
    ensures Valid(t.(prompts := AfterClusterUpdates(t.prompts, us, now)))
  {
    SameKeys(t.prompts, AfterClusterUpdates(t.prompts, us, now), PromptKey);
  }
}
