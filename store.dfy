/** The data layer as the program runs it: one connection holding the four
    tables, whose operations run their statements one after another inside
    a transaction, and roll back to the state they started from when a
    statement fails. Each operation is proved to do what the matching
    definition in `Transactions` says, and to keep the schema's rules. */
module Store {
  import opened Types
  import opened Sql
  import opened Schema
  import opened Queries
  import opened Transactions
  import opened Integrity

  class PromptStore {
    var prompts: seq<Prompt>
    var blocks: seq<Block>
    var tags: seq<Tag>
    var links: seq<PromptTag>
    var tagSeq: int

    /** The tables as a value. */
    function State(): Tables
      reads this
    {
      Tables(prompts, blocks, tags, links, tagSeq)
    }

    ghost predicate Valid()
      reads this
    {
      Schema.Valid(State())
    }

    /** A new database: the schema is created with no rows. */
    constructor ()
      ensures State() == Empty
      ensures Valid()
    {
      prompts, blocks, tags, links, tagSeq := [], [], [], [], 0;
    }

    /** A failed transaction is rolled back to where it started. */
    method Rollback(saved: Tables)
      modifies this
      ensures State() == saved
    {
      prompts, blocks, tags, links, tagSeq := saved.prompts, saved.blocks, saved.tags, saved.links, saved.tagSeq;
    }

    /** The block INSERTs of a transaction, one row at a time. Each checks
        the primary key, then the foreign key to `prompts`; the first that
        fails stops the transaction. */
    method InsertBlocks(rows: seq<Block>) returns (r: Result<()>)
      requires DistinctBy(blocks, BlockKey)
      modifies this`blocks
      ensures r.Ok? <==>
        && DistinctBy(old(blocks) + rows, BlockKey)
        && (forall b :: b in rows ==> b.promptId in PromptIds(prompts))
      ensures r.Ok? ==> blocks == old(blocks) + rows
    {
      ghost var all := old(blocks) + rows;
      var i := 0;
      while i < |rows|
        invariant 0 <= i <= |rows|
        invariant blocks == old(blocks) + rows[..i] == all[..|old(blocks)| + i]
        invariant DistinctBy(blocks, BlockKey)
        invariant forall b :: b in rows[..i] ==> b.promptId in PromptIds(prompts)
      {
        var row := rows[i];
        assert rows[..i + 1] == rows[..i] + [row];
        assert all[..|old(blocks)| + i + 1] == blocks + [row];
        DistinctBySnoc(blocks, row, BlockKey);
        if row.id in BlockIds(blocks) {
          NotDistinctByExtends(all, |old(blocks)| + i + 1, BlockKey);
          return Err(PrimaryKeyViolation);
        }
        if row.promptId !in PromptIds(prompts) {
          return Err(ForeignKeyViolation);
        }
        blocks := blocks + [row];
        i := i + 1;
      }
      assert rows[..i] == rows;
      return Ok(());
    }

    /** The link INSERTs of a transaction, one row at a time: primary key,
        then the foreign keys to `prompts` and `tags`. */
    method InsertLinks(rows: seq<PromptTag>) returns (r: Result<()>)
      requires Distinct(links)
      modifies this`links
      ensures r.Ok? <==>
        && Distinct(old(links) + rows)
        && (forall l :: l in rows ==> l.promptId in PromptIds(prompts) && l.tagId in TagIds(tags))
      ensures r.Ok? ==> links == old(links) + rows
    {
      ghost var all := old(links) + rows;
      var i := 0;
      while i < |rows|
        invariant 0 <= i <= |rows|
        invariant links == old(links) + rows[..i] == all[..|old(links)| + i]
        invariant Distinct(links)
        invariant forall l :: l in rows[..i] ==> l.promptId in PromptIds(prompts) && l.tagId in TagIds(tags)
      {
        var row := rows[i];
        assert rows[..i + 1] == rows[..i] + [row];
        assert all[..|old(links)| + i + 1] == links + [row];
        DistinctSnoc(links, row);
        if row in links {
          NotDistinctExtends(all, |old(links)| + i + 1);
          return Err(PrimaryKeyViolation);
        }
        if row.promptId !in PromptIds(prompts) || row.tagId !in TagIds(tags) {
          return Err(ForeignKeyViolation);
        }
        links := links + [row];
        i := i + 1;
      }
      assert rows[..i] == rows;
      return Ok(());
    }

    /** The tag INSERTs of importAll, with explicit ids: primary key, then the
        UNIQUE name. Each explicit id moves the AUTOINCREMENT counter up to
        it. */
    method InsertTags(rows: seq<Tag>) returns (r: Result<()>)
      requires DistinctBy(tags, TagIdKey) && DistinctBy(tags, TagNameKey)
      modifies this`tags, this`tagSeq
      ensures r.Ok? <==> DistinctBy(old(tags) + rows, TagIdKey) && DistinctBy(old(tags) + rows, TagNameKey)
      ensures r.Ok? ==> tags == old(tags) + rows && tagSeq == MaxTagSeq(old(tagSeq), rows)
    {
      ghost var all := old(tags) + rows;
      var i := 0;
      while i < |rows|
        invariant 0 <= i <= |rows|
        invariant tags == old(tags) + rows[..i] == all[..|old(tags)| + i]
        invariant DistinctBy(tags, TagIdKey) && DistinctBy(tags, TagNameKey)
        invariant tagSeq == MaxTagSeq(old(tagSeq), rows[..i])
      {
        var row := rows[i];
        assert rows[..i + 1] == rows[..i] + [row];
        assert rows[..i + 1][..i] == rows[..i];
        assert all[..|old(tags)| + i + 1] == tags + [row];
        ghost var prefix := tags;
        r := InsertTag(row);
        if r.Err? {
          if !DistinctBy(prefix + [row], TagIdKey) {
            NotDistinctByExtends(all, |old(tags)| + i + 1, TagIdKey);
          } else {
            NotDistinctByExtends(all, |old(tags)| + i + 1, TagNameKey);
          }
          return;
        }
        i := i + 1;
      }
      assert rows[..i] == rows;
      return Ok(());
    }

    /** One tag INSERT with an explicit id: the primary key is checked,
        then the UNIQUE name; the counter moves up to the id. */
    method InsertTag(row: Tag) returns (r: Result<()>)
      requires DistinctBy(tags, TagIdKey) && DistinctBy(tags, TagNameKey)
      modifies this`tags, this`tagSeq
      ensures DistinctBy(tags, TagIdKey) && DistinctBy(tags, TagNameKey)
      ensures r.Ok? <==> DistinctBy(old(tags) + [row], TagIdKey) && DistinctBy(old(tags) + [row], TagNameKey)
      ensures r.Ok? ==> tags == old(tags) + [row] && tagSeq == (if row.id > old(tagSeq) then row.id else old(tagSeq))
    {
      DistinctBySnoc(tags, row, TagIdKey);
      DistinctBySnoc(tags, row, TagNameKey);
      if row.id in TagIds(tags) {
        return Err(PrimaryKeyViolation);
      }
      if row.name in TagNames(tags) {
        return Err(UniqueViolation);
      }
      tags := tags + [row];
      if row.id > tagSeq {
        tagSeq := row.id;
      }
      return Ok(());
    }

    /** createPrompt: inserts the prompt row, its blocks in list order and its
        tag links in one transaction, and returns the new id. `id` and
        `blockIds` are the UUIDs the call generates, `now` the clock. */
    method CreatePrompt(req: CreateRequest, id: string, blockIds: seq<string>, now: int) returns (r: Result<string>)
      requires Valid() && |blockIds| == |req.blocks|
      modifies this
      ensures Valid()
      ensures r.Ok? <==> CreateCommits(old(State()), req, id, blockIds)
      ensures r.Ok? ==> r.value == id && State() == AfterCreate(old(State()), req, id, blockIds, now)
      ensures r.Err? ==> State() == old(State())
    {
      var saved := State();
      if id in PromptIds(prompts) {
        return Err(PrimaryKeyViolation);
      }
      var row := NewPromptRow(id, req, now);
      prompts := prompts + [row];
      KeySetConcat(saved.prompts, [row], PromptKey);
      SingletonKeys(row, PromptKey);
      var res := InsertBlocks(BlockRows(req.blocks, blockIds, id));
      if res.Err? {
        Rollback(saved);
        return Err(res.error);
      }
      res := InsertLinks(LinkRows(id, req.tagIds));
      if res.Err? {
        Rollback(saved);
        return Err(res.error);
      }
      CreateKeepsValid(saved, req, id, blockIds, now);
      return Ok(id);
    }

    /** updatePrompt: `Ok(false)` for an unknown id, touching nothing;
        otherwise, in one transaction, writes the given fields, then replaces
        the blocks if a list is given, then the tags if a list is given.
        `freshIds` are the UUIDs drawn for blocks that come without an id. */
    method UpdatePrompt(id: string, req: UpdateRequest, freshIds: seq<string>, now: int) returns (r: Result<bool>)
      requires Valid() && |freshIds| == |BlockList(req)|
      modifies this
      ensures Valid()
      ensures id !in PromptIds(old(prompts)) ==> r == Ok(false) && State() == old(State())
      ensures id in PromptIds(old(prompts)) ==>
        && (r.Ok? <==> UpdateCommits(old(State()), id, req, freshIds))
        && (r.Ok? ==> r.value && State() == AfterUpdate(old(State()), id, req, freshIds, now))
        && (r.Err? ==> State() == old(State()))
    {
      if id !in PromptIds(prompts) {
        return Ok(false);
      }
      var saved := State();
      TouchPrompt(id, req, now);
      ghost var touched := State();
      assert UpdateCommits(touched, id, req, freshIds) == UpdateCommits(saved, id, req, freshIds);
      var res := ReplaceChildren(id, req, freshIds);
      if res.Err? {
        Rollback(saved);
        return Err(res.error);
      }
      UpdateKeepsValid(saved, id, req, freshIds, now);
      assert State() == AfterUpdate(saved, id, req, freshIds, now);
      return Ok(true);
    }

    /** The row update of updatePrompt, run only when a title or a
        description is given; it keeps every prompt id. */
    method TouchPrompt(id: string, req: UpdateRequest, now: int)
      modifies this`prompts
      ensures prompts == TouchRows(old(prompts), id, req, now)
      ensures PromptIds(prompts) == PromptIds(old(prompts))
      ensures DistinctBy(prompts, PromptKey) <==> DistinctBy(old(prompts), PromptKey)
    {
      if req.title.Some? || req.description.Some? {
        prompts := TouchRows(prompts, id, req, now);
      } else {
        assert prompts == TouchRows(prompts, id, req, now);
      }
      SameKeys(old(prompts), prompts, PromptKey);
    }

    /** The statements of updatePrompt after the row update: the block list
        replacement, then the tag list replacement, stopping at the first
        failed INSERT. */
    method ReplaceChildren(id: string, req: UpdateRequest, freshIds: seq<string>) returns (r: Result<()>)
      requires DistinctBy(blocks, BlockKey) && Distinct(links) && id in PromptIds(prompts)
      requires |freshIds| == |BlockList(req)|
      modifies this`blocks, this`links
      ensures r.Ok? <==> UpdateCommits(old(State()), id, req, freshIds)
      ensures r.Ok? ==>
        && blocks == (if req.blocks.Some? then Filter(old(blocks), NotOwnedBy(id)) + ReplacementBlocks(id, req, freshIds) else old(blocks))
        && links == (if req.tagIds.Some? then Filter(old(links), LinkNotOf(id)) + LinkRows(id, req.tagIds.value) else old(links))
    {
      if req.blocks.Some? {
        r := ReplaceBlocks(id, req, freshIds);
        if r.Err? {
          return;
        }
      }
      if req.tagIds.Some? {
        r := ReplaceLinks(id, req.tagIds.value);
        if r.Err? {
          return;
        }
      }
      return Ok(());
    }

    /** The block half of updatePrompt: the prompt's blocks are deleted and
        the given list is inserted in their place. */
    method ReplaceBlocks(id: string, req: UpdateRequest, freshIds: seq<string>) returns (r: Result<()>)
      requires DistinctBy(blocks, BlockKey) && id in PromptIds(prompts)
      requires req.blocks.Some? && |freshIds| == |BlockList(req)|
      modifies this`blocks
      ensures r.Ok? <==>
        DistinctBy(Filter(old(blocks), NotOwnedBy(id)) + ReplacementBlocks(id, req, freshIds), BlockKey)
      ensures r.Ok? ==> blocks == Filter(old(blocks), NotOwnedBy(id)) + ReplacementBlocks(id, req, freshIds)
    {
      FilterDistinctBy(blocks, NotOwnedBy(id), BlockKey);
      blocks := Filter(blocks, NotOwnedBy(id));
      r := InsertBlocks(ReplacementBlocks(id, req, freshIds));
    }

    /** The tag half of updatePrompt: the prompt's links are deleted and
        one is inserted per given tag id. */
    method ReplaceLinks(id: string, tagIds: seq<int>) returns (r: Result<()>)
      requires Distinct(links) && id in PromptIds(prompts)
      modifies this`links
      ensures r.Ok? <==>
        && Distinct(Filter(old(links), LinkNotOf(id)) + LinkRows(id, tagIds))
        && (forall l :: l in LinkRows(id, tagIds) ==> l.tagId in TagIds(tags))
      ensures r.Ok? ==> links == Filter(old(links), LinkNotOf(id)) + LinkRows(id, tagIds)
    {
      FilterDistinct(links, LinkNotOf(id));
      links := Filter(links, LinkNotOf(id));
      r := InsertLinks(LinkRows(id, tagIds));
    }

    /** deletePrompt: deletes the row (its blocks and links go by cascade)
        and reports whether a row was deleted. */
    method DeletePrompt(id: string) returns (deleted: bool)
      requires Valid()
      modifies this
      ensures Valid()
      ensures deleted <==> id in PromptIds(old(prompts))
      ensures State() == AfterDeletePrompt(old(State()), id)
    {
      var kept := Filter(prompts, PromptNot(id));
      deleted := |kept| < |prompts|;
      FilterRemovesSome(prompts, PromptNot(id));
      DeletePromptKeepsValid(State(), id);
      prompts, blocks, links := kept, Filter(blocks, NotOwnedBy(id)), Filter(links, LinkNotOf(id));
    }

    /** createTag: inserts a row under the next AUTOINCREMENT id and returns
        that id. */
    method CreateTag(name: string) returns (r: Result<int>)
      requires Valid()
      modifies this
      ensures Valid()
      ensures r == CreateTagOutcome(old(State()), name)
      ensures r.Ok? ==> State() == AfterCreateTag(old(State()), name)
      ensures r.Err? ==> State() == old(State())
    {
      if tagSeq >= MaxRowid {
        return Err(Full);
      }
      if name in TagNames(tags) {
        return Err(UniqueViolation);
      }
      CreateTagKeepsValid(State(), name);
      var newId := tagSeq + 1;
      tags := tags + [Tag(newId, name)];
      tagSeq := newId;
      return Ok(newId);
    }

    /** deleteTag: deletes the row (its links go by cascade) and reports
        whether a row was deleted. */
    method DeleteTag(id: int) returns (deleted: bool)
      requires Valid()
      modifies this
      ensures Valid()
      ensures deleted <==> id in TagIds(old(tags))
      ensures State() == AfterDeleteTag(old(State()), id)
    {
      var kept := Filter(tags, TagNot(id));
      deleted := |kept| < |tags|;
      FilterRemovesSome(tags, TagNot(id));
      DeleteTagKeepsValid(State(), id);
      tags, links := kept, Filter(links, LinkNotTo(id));
    }

    /** The inserts importAll makes for one exported prompt, after those
        for `before`: the prompt row, then each block as exported, then a
        link to each of its tags. */
    method InsertDetails(ghost before: seq<PromptWithDetails>, d: PromptWithDetails) returns (r: Result<()>)
      requires PromptsImportable(before, tags)
      requires prompts == ImportedPrompts(before)
      requires blocks == ImportedBlocks(before)
      requires links == ImportedLinks(before)
      modifies this`prompts, this`blocks, this`links
      ensures r.Ok? <==> ImportStep(before, d, tags)
      ensures r.Ok? ==>
        && prompts == ImportedPrompts(before + [d])
        && blocks == ImportedBlocks(before + [d])
        && links == ImportedLinks(before + [d])
    {
      assert (before + [d])[..|before|] == before;
      ImportedValid(before, tags);
      if d.prompt.id in PromptIds(prompts) {
        return Err(PrimaryKeyViolation);
      }
      prompts := prompts + [d.prompt];
      r := InsertBlocks(d.blocks);
      if r.Err? {
        return;
      }
      KeySetConcat(ImportedPrompts(before), [d.prompt], PromptKey);
      SingletonKeys(d.prompt, PromptKey);
      r := InsertLinks(DetailLinks(d));
    }

    /** The prompt inserts of importAll, one exported prompt after another,
        into tables emptied beforehand. */
    method InsertPrompts(ds: seq<PromptWithDetails>) returns (r: Result<()>)
      requires prompts == [] && blocks == [] && links == []
      modifies this`prompts, this`blocks, this`links
      ensures r.Ok? <==> PromptsImportable(ds, tags)
      ensures r.Ok? ==>
        && prompts == ImportedPrompts(ds)
        && blocks == ImportedBlocks(ds)
        && links == ImportedLinks(ds)
    {
      var k := 0;
      while k < |ds|
        invariant 0 <= k <= |ds|
        invariant PromptsImportable(ds[..k], tags)
        invariant prompts == ImportedPrompts(ds[..k])
        invariant blocks == ImportedBlocks(ds[..k])
        invariant links == ImportedLinks(ds[..k])
      {
        assert ds[..k + 1] == ds[..k] + [ds[k]];
        assert ds[..k + 1][..k] == ds[..k];
        r := InsertDetails(ds[..k], ds[k]);
        if r.Err? {
          ImportablePrefix(ds, k + 1, tags);
          return;
        }
        k := k + 1;
      }
      assert ds[..k] == ds;
      return Ok(());
    }

    /** importAll: in one transaction, empties the four tables, inserts the
        snapshot's tags with their ids, then each prompt followed by its
        blocks and its links. */
    method ImportAll(s: Snapshot) returns (r: Result<()>)
      requires Valid()
      modifies this
      ensures Valid()
      ensures r.Ok? <==> ImportCommits(s)
      ensures r.Ok? ==> State() == AfterImport(old(State()), s)
      ensures r.Err? ==> State() == old(State())
    {
      var saved := State();
      links, blocks, prompts, tags := [], [], [], [];
      r := InsertTags(s.tags);
      assert [] + s.tags == s.tags;
      if r.Err? {
        Rollback(saved);
        return;
      }
      r := InsertPrompts(s.prompts);
      if r.Err? {
        Rollback(saved);
        return;
      }
      ImportKeepsValid(saved, s);
    }

    /** updateClusters: in one transaction, one UPDATE per assignment, in
        order; an id with no row changes nothing. */
    method UpdateClusters(us: seq<ClusterUpdate>, now: int)
      requires Valid()
      modifies this`prompts
      ensures Valid()
      ensures prompts == AfterClusterUpdates(old(prompts), us, now)
    {
      var i := 0;
      while i < |us|
        invariant 0 <= i <= |us|
        invariant prompts == AfterClusterUpdates(old(prompts), us[..i], now)
      {
        var u := us[i];
        prompts := AssignRows(prompts, u, now);
        ClusterUpdateStep(old(prompts), us[..i], u, now);
        assert us[..i + 1] == us[..i] + [u];
        i := i + 1;
      }
      assert us[..i] == us;
      ClusterUpdatesKeepValid(old(State()), us, now);
    }
  }
}
