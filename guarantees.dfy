/** What the mutating operations promise their callers, read back through
    getPromptById and getAllTags: the prompt a creation stores, the fields
    an update writes and the ones it keeps, what a deletion removes and
    what it leaves, and the ids AUTOINCREMENT hands out. */
module Guarantees {
  import opened Types
  import opened Sql
  import opened Schema
  import opened Queries
  import opened Transactions
  import opened Integrity

  /** No row of a valid store refers to a prompt id that is not in use. */
  lemma NothingOwnedByFreshId(t: Tables, id: string)
    requires Valid(t) && id !in PromptIds(t.prompts)
    ensures Filter(t.blocks, OwnedBy(id)) == []
    ensures Filter(t.links, LinkOf(id)) == []
  {
    FilterNone(t.blocks, OwnedBy(id));
    FilterNone(t.links, LinkOf(id));
  }

  /** The rows a prompt owns, once its old rows are gone and new ones are
      appended, are the new ones. */
  lemma OwnedRowsAreNew(rest: seq<Block>, rows: seq<Block>, pid: string)
    requires forall b :: b in rest ==> b.promptId != pid
    requires forall b :: b in rows ==> b.promptId == pid
    ensures Filter(rest + rows, OwnedBy(pid)) == rows
  {
    FilterConcat(rest, rows, OwnedBy(pid));
    FilterNone(rest, OwnedBy(pid));
    FilterKeepsAll(rows, OwnedBy(pid));
    assert [] + rows == rows;
  }

  lemma OwnedLinksAreNew(rest: seq<PromptTag>, rows: seq<PromptTag>, pid: string)
    requires forall l :: l in rest ==> l.promptId != pid
    requires forall l :: l in rows ==> l.promptId == pid
    ensures Filter(rest + rows, LinkOf(pid)) == rows
  {
    FilterConcat(rest, rows, LinkOf(pid));
    FilterNone(rest, LinkOf(pid));
    FilterKeepsAll(rows, LinkOf(pid));
    assert [] + rows == rows;
  }

  /** Rows inserted for a list come back in list order: their sort_order is
      their position. */
  lemma BlockRowsInOrder(bs: seq<BlockInput>, ids: seq<string>, pid: string)
    requires |ids| == |bs|
    ensures SortBy(BlockRows(bs, ids, pid), LowerSortOrder) == BlockRows(bs, ids, pid)
  {
    var rows := BlockRows(bs, ids, pid);
    forall i, j | 0 <= i < j < |rows| ensures !LowerSortOrder(rows[j], rows[i]) {
      assert rows[i].sortOrder == i && rows[j].sortOrder == j;
    }
    SortByIdentity(rows, LowerSortOrder);
  }

  /** Link rows for a list of existing tag ids join to those tags, in list
      order. */
  lemma LinkRowsJoin(pid: string, tagIds: seq<int>, ts: seq<Tag>)
    requires forall tid :: tid in tagIds ==> tid in TagIds(ts)
    ensures |JoinTags(LinkRows(pid, tagIds), ts)| == |tagIds|
    ensures forall i :: 0 <= i < |tagIds| ==>
      JoinTags(LinkRows(pid, tagIds), ts)[i].id == tagIds[i] && JoinTags(LinkRows(pid, tagIds), ts)[i] in ts
  {
    var rows := LinkRows(pid, tagIds);
    forall l | l in rows ensures l.tagId in TagIds(ts) {
      var i :| 0 <= i < |rows| && rows[i] == l;
      assert tagIds[i] in tagIds;
    }
    JoinTagsAll(rows, ts);
  }

  // ---------------------------------------------------------------------
  // createPrompt

  /** Reading a created prompt back gives the title, the description (a
      missing or empty one as NULL), no cluster, both timestamps the
      creation time; the blocks in input order with sort_order 0..n-1,
      their kind defaulting to text; and exactly the requested tags, in
      request order. */
  lemma CreateRoundTrip(t: Tables, req: CreateRequest, id: string, blockIds: seq<string>, now: int)
    requires Valid(t) && |blockIds| == |req.blocks|
    requires CreateCommits(t, req, id, blockIds)
    ensures GetPromptById(AfterCreate(t, req, id, blockIds, now), id).Some?
    ensures
      var d := GetPromptById(AfterCreate(t, req, id, blockIds, now), id).value;
      && d.prompt.id == id && d.prompt.title == req.title
      && (d.prompt.description.None? <==> req.description.None? || req.description == Some(""))
      && (d.prompt.description.Some? ==> d.prompt.description == req.description)
      && d.prompt.clusterGroup.None? && d.prompt.clusterKeywords.None?
      && d.prompt.createdAt == now && d.prompt.updatedAt == now
      && |d.blocks| == |req.blocks|
      && (forall i :: 0 <= i < |d.blocks| ==>
            && d.blocks[i].id == blockIds[i]
            && d.blocks[i].promptId == id
            && d.blocks[i].content == req.blocks[i].content
            && d.blocks[i].sortOrder == i
            && d.blocks[i].kind == (if req.blocks[i].kind.Some? then req.blocks[i].kind.value else Text)
            && d.blocks[i].metaJson == OrNull(req.blocks[i].metaJson))
      && |d.tags| == |req.tagIds|
      && (forall i :: 0 <= i < |d.tags| ==> d.tags[i].id == req.tagIds[i] && d.tags[i] in t.tags)
  {
    CreatedRow(t, req, id, blockIds, now);
    CreatedBlocks(t, req, id, blockIds, now);
    CreatedTags(t, req, id, blockIds, now);
  }

  lemma CreatedRow(t: Tables, req: CreateRequest, id: string, blockIds: seq<string>, now: int)
    requires Valid(t) && |blockIds| == |req.blocks|
    requires CreateCommits(t, req, id, blockIds)
    ensures FindPrompt(AfterCreate(t, req, id, blockIds, now).prompts, id) == Some(NewPromptRow(id, req, now))
  {
    CreateKeepsValid(t, req, id, blockIds, now);
    FindPromptUnique(AfterCreate(t, req, id, blockIds, now).prompts, NewPromptRow(id, req, now));
  }

  lemma CreatedBlocks(t: Tables, req: CreateRequest, id: string, blockIds: seq<string>, now: int)
    requires Valid(t) && |blockIds| == |req.blocks|
    requires CreateCommits(t, req, id, blockIds)
    ensures BlocksOf(AfterCreate(t, req, id, blockIds, now), id) == BlockRows(req.blocks, blockIds, id)
  {
    NothingOwnedByFreshId(t, id);
    OwnedRowsAreNew(t.blocks, BlockRows(req.blocks, blockIds, id), id);
    BlockRowsInOrder(req.blocks, blockIds, id);
  }

  lemma CreatedTags(t: Tables, req: CreateRequest, id: string, blockIds: seq<string>, now: int)
    requires Valid(t) && |blockIds| == |req.blocks|
    requires CreateCommits(t, req, id, blockIds)
    ensures |TagsOf(AfterCreate(t, req, id, blockIds, now), id)| == |req.tagIds|
    ensures forall i :: 0 <= i < |req.tagIds| ==>
      TagsOf(AfterCreate(t, req, id, blockIds, now), id)[i].id == req.tagIds[i] &&
      TagsOf(AfterCreate(t, req, id, blockIds, now), id)[i] in t.tags
  {
    var links := LinkRows(id, req.tagIds);
    assert TagsOf(AfterCreate(t, req, id, blockIds, now), id) == JoinTags(links, t.tags) by {
      NothingOwnedByFreshId(t, id);
      OwnedLinksAreNew(t.links, links, id);
    }
    forall tid | tid in req.tagIds ensures tid in TagIds(t.tags) {
      var i :| 0 <= i < |req.tagIds| && req.tagIds[i] == tid;
      assert links[i] in links;
    }
    LinkRowsJoin(id, req.tagIds, t.tags);
  }

  /** On a valid store createPrompt commits exactly when its new id is
      unused, its block ids are distinct and unused, and its tag ids are
      distinct and name existing tags. An unknown or repeated tag id makes
      it fail (and then the store is left as it was). */
  lemma CreateCommitsIff(t: Tables, req: CreateRequest, id: string, blockIds: seq<string>)
    requires Valid(t) && |blockIds| == |req.blocks|
    ensures CreateCommits(t, req, id, blockIds) <==>
      && id !in PromptIds(t.prompts)
      && Distinct(blockIds) && (forall b :: b in blockIds ==> b !in BlockIds(t.blocks))
      && Distinct(req.tagIds) && (forall tid :: tid in req.tagIds ==> tid in TagIds(t.tags))
  {
    var rows := BlockRows(req.blocks, blockIds, id);
    var links := LinkRows(id, req.tagIds);
    DistinctByConcat(t.blocks, rows, BlockKey);
    assert DistinctBy(rows, BlockKey) <==> Distinct(blockIds) by {
      assert forall i :: 0 <= i < |rows| ==> BlockKey(rows[i]) == blockIds[i];
    }
    assert KeySet(rows, BlockKey) == set b | b in blockIds by {
      forall k | k in KeySet(rows, BlockKey) ensures k in blockIds {
        var x :| x in rows && BlockKey(x) == k;
        var i :| 0 <= i < |rows| && rows[i] == x;
        assert blockIds[i] == k;
      }
      forall k | k in blockIds ensures k in KeySet(rows, BlockKey) {
        var i :| 0 <= i < |blockIds| && blockIds[i] == k;
        assert rows[i] in rows;
      }
    }
    assert Distinct(links) <==> Distinct(req.tagIds) by {
      assert forall i :: 0 <= i < |links| ==> links[i] == PromptTag(id, req.tagIds[i]);
    }
    assert (forall l :: l in links ==> l.tagId in TagIds(t.tags)) <==>
           (forall tid :: tid in req.tagIds ==> tid in TagIds(t.tags)) by {
      forall tid | tid in req.tagIds ensures PromptTag(id, tid) in links {
        var i :| 0 <= i < |req.tagIds| && req.tagIds[i] == tid;
        assert links[i] == PromptTag(id, tid);
      }
    }
    if id !in PromptIds(t.prompts) {
      DistinctConcat(t.links, links);
    }
  }

  // ---------------------------------------------------------------------
  // updatePrompt

  /** The row an update leaves, field by field: title and description are
      written only when given (an empty description is stored as given),
      updated_at moves to the update time only when one of them is given,
      and nothing else about the row changes. */
  lemma UpdatePromptRow(t: Tables, id: string, req: UpdateRequest, freshIds: seq<string>, now: int)
    requires Valid(t) && |freshIds| == |BlockList(req)|
    requires id in PromptIds(t.prompts)
    requires UpdateCommits(t, id, req, freshIds)
    ensures GetPromptById(AfterUpdate(t, id, req, freshIds, now), id).Some?
    ensures
      var p := GetPromptById(t, id).value.prompt;
      var q := GetPromptById(AfterUpdate(t, id, req, freshIds, now), id).value.prompt;
      && q.id == id
      && q.title == (if req.title.Some? then req.title.value else p.title)
      && q.description == (if req.description.Some? then req.description else p.description)
      && q.updatedAt == (if req.title.Some? || req.description.Some? then now else p.updatedAt)
      && q.createdAt == p.createdAt
      && q.clusterGroup == p.clusterGroup && q.clusterKeywords == p.clusterKeywords
  {
    var u := AfterUpdate(t, id, req, freshIds, now);
    UpdateKeepsValid(t, id, req, freshIds, now);
    var p := FindPrompt(t.prompts, id).value;
    var i :| 0 <= i < |t.prompts| && t.prompts[i] == p;
    assert u.prompts[i] == Touch(p, req, now);
    FindPromptUnique(u.prompts, Touch(p, req, now));
  }

  /** A given block list replaces the prompt's blocks wholesale: they come
      back in list order, with sort_order the position, the caller's id
      kept when non-empty and a fresh id otherwise. Without a list the
      blocks are left alone. */
  lemma UpdateBlocks(t: Tables, id: string, req: UpdateRequest, freshIds: seq<string>, now: int)
    requires Valid(t) && |freshIds| == |BlockList(req)|
    requires id in PromptIds(t.prompts)
    requires UpdateCommits(t, id, req, freshIds)
    ensures GetPromptById(AfterUpdate(t, id, req, freshIds, now), id).Some?
    ensures
      var before := GetPromptById(t, id).value.blocks;
      var after := GetPromptById(AfterUpdate(t, id, req, freshIds, now), id).value.blocks;
      && (req.blocks.None? ==> after == before)
      && (req.blocks.Some? ==>
            && |after| == |req.blocks.value|
            && forall i :: 0 <= i < |after| ==>
                 var b := req.blocks.value[i];
                 && after[i].id == (if b.id.Some? && b.id.value != "" then b.id.value else freshIds[i])
                 && after[i].promptId == id
                 && after[i].content == b.content
                 && after[i].sortOrder == i
                 && after[i].kind == (if b.kind.Some? then b.kind.value else Text)
                 && after[i].metaJson == OrNull(b.metaJson))
  {
    UpdatedPromptFound(t, id, req, freshIds, now);
    if req.blocks.Some? {
      UpdatedBlocks(t, id, req, freshIds, now);
      ReplacementFields(id, req, freshIds);
    }
  }

  lemma ReplacementFields(id: string, req: UpdateRequest, freshIds: seq<string>)
    requires |freshIds| == |BlockList(req)| && req.blocks.Some?
    ensures
      var rows := ReplacementBlocks(id, req, freshIds);
      && |rows| == |req.blocks.value|
      && forall i :: 0 <= i < |rows| ==>
           var b := req.blocks.value[i];
           && rows[i].id == (if b.id.Some? && b.id.value != "" then b.id.value else freshIds[i])
           && rows[i].promptId == id
           && rows[i].content == b.content
           && rows[i].sortOrder == i
           && rows[i].kind == (if b.kind.Some? then b.kind.value else Text)
           && rows[i].metaJson == OrNull(b.metaJson)
  {
  }

  lemma UpdatedPromptFound(t: Tables, id: string, req: UpdateRequest, freshIds: seq<string>, now: int)
    requires Valid(t) && |freshIds| == |BlockList(req)|
    requires id in PromptIds(t.prompts)
    ensures GetPromptById(AfterUpdate(t, id, req, freshIds, now), id).Some?
  {
    SameKeys(t.prompts, AfterUpdate(t, id, req, freshIds, now).prompts, PromptKey);
  }

  lemma UpdatedBlocks(t: Tables, id: string, req: UpdateRequest, freshIds: seq<string>, now: int)
    requires |freshIds| == |BlockList(req)| && req.blocks.Some?
    ensures BlocksOf(AfterUpdate(t, id, req, freshIds, now), id) == ReplacementBlocks(id, req, freshIds)
  {
    var rows := ReplacementBlocks(id, req, freshIds);
    OwnedRowsAreNew(Filter(t.blocks, NotOwnedBy(id)), rows, id);
    BlockRowsInOrder(BlockList(req), EffectiveIds(BlockList(req), freshIds), id);
  }

  /** A given tag id list replaces the prompt's tags wholesale; without one
      the tags are left alone. */
  lemma UpdateTags(t: Tables, id: string, req: UpdateRequest, freshIds: seq<string>, now: int)
    requires Valid(t) && |freshIds| == |BlockList(req)|
    requires id in PromptIds(t.prompts)
    requires UpdateCommits(t, id, req, freshIds)
    ensures GetPromptById(AfterUpdate(t, id, req, freshIds, now), id).Some?
    ensures
      var before := GetPromptById(t, id).value.tags;
      var after := GetPromptById(AfterUpdate(t, id, req, freshIds, now), id).value.tags;
      && (req.tagIds.None? ==> after == before)
      && (req.tagIds.Some? ==>
            && |after| == |req.tagIds.value|
            && forall i :: 0 <= i < |after| ==> after[i].id == req.tagIds.value[i] && after[i] in t.tags)
  {
    var u := AfterUpdate(t, id, req, freshIds, now);
    UpdatePromptRow(t, id, req, freshIds, now);
    if req.tagIds.Some? {
      var tagIds := req.tagIds.value;
      var links := LinkRows(id, tagIds);
      assert TagsOf(u, id) == JoinTags(links, t.tags) by {
        OwnedLinksAreNew(Filter(t.links, LinkNotOf(id)), links, id);
      }
      forall tid | tid in tagIds ensures tid in TagIds(t.tags) {
        var i :| 0 <= i < |tagIds| && tagIds[i] == tid;
        assert links[i] in links;
      }
      LinkRowsJoin(id, tagIds, t.tags);
    }
  }

  /** Updating one prompt leaves every other prompt, with its blocks and
      tags, exactly as it was. */
  lemma UpdateFrame(t: Tables, id: string, req: UpdateRequest, freshIds: seq<string>, now: int, other: string)
    requires Valid(t) && |freshIds| == |BlockList(req)|
    requires id in PromptIds(t.prompts) && other != id
    requires UpdateCommits(t, id, req, freshIds)
    ensures GetPromptById(AfterUpdate(t, id, req, freshIds, now), other) == GetPromptById(t, other)
  {
    var u := AfterUpdate(t, id, req, freshIds, now);
    assert FindPrompt(u.prompts, other) == FindPrompt(t.prompts, other) by {
      UpdateKeepsValid(t, id, req, freshIds, now);
      SameKeys(t.prompts, u.prompts, PromptKey);
      if other in PromptIds(t.prompts) {
        var p := FindPrompt(t.prompts, other).value;
        var i :| 0 <= i < |t.prompts| && t.prompts[i] == p;
        assert u.prompts[i] == p;
        FindPromptUnique(u.prompts, p);
      }
    }
    assert Filter(u.blocks, OwnedBy(other)) == Filter(t.blocks, OwnedBy(other)) by {
      if req.blocks.Some? {
        var rows := ReplacementBlocks(id, req, freshIds);
        FilterConcat(Filter(t.blocks, NotOwnedBy(id)), rows, OwnedBy(other));
        FilterFilter(t.blocks, NotOwnedBy(id), OwnedBy(other));
        FilterNone(rows, OwnedBy(other));
        assert Filter(t.blocks, OwnedBy(other)) + [] == Filter(t.blocks, OwnedBy(other));
      }
    }
    assert Filter(u.links, LinkOf(other)) == Filter(t.links, LinkOf(other)) by {
      if req.tagIds.Some? {
        var rows := LinkRows(id, req.tagIds.value);
        FilterConcat(Filter(t.links, LinkNotOf(id)), rows, LinkOf(other));
        FilterFilter(t.links, LinkNotOf(id), LinkOf(other));
        FilterNone(rows, LinkOf(other));
        assert Filter(t.links, LinkOf(other)) + [] == Filter(t.links, LinkOf(other));
      }
    }
  }

  // ---------------------------------------------------------------------
  // deletePrompt

  /** Deleting a prompt removes it with every block and link of it (the
      cascades), and leaves every other prompt and all tags as they were. */
  lemma DeletePromptCascade(t: Tables, id: string)
    requires Valid(t)
    ensures GetPromptById(AfterDeletePrompt(t, id), id).None?
    ensures forall b :: b in AfterDeletePrompt(t, id).blocks ==> b.promptId != id
    ensures forall l :: l in AfterDeletePrompt(t, id).links ==> l.promptId != id
    ensures AfterDeletePrompt(t, id).tags == t.tags
  {
    var u := AfterDeletePrompt(t, id);
    assert id !in PromptIds(u.prompts);
  }

  lemma DeletePromptFrame(t: Tables, id: string, other: string)
    requires Valid(t) && other != id
    ensures GetPromptById(AfterDeletePrompt(t, id), other) == GetPromptById(t, other)
  {
    var u := AfterDeletePrompt(t, id);
    DeletePromptKeepsValid(t, id);
    if other in PromptIds(t.prompts) {
      var p := FindPrompt(t.prompts, other).value;
      assert p in u.prompts;
      FindPromptUnique(u.prompts, p);
    } else {
      assert other !in PromptIds(u.prompts);
    }
    FilterFilter(t.blocks, NotOwnedBy(id), OwnedBy(other));
    FilterFilter(t.links, LinkNotOf(id), LinkOf(other));
  }

  // ---------------------------------------------------------------------
  // createTag, deleteTag

  /** A new tag gets an id above every id in use and above every id handed
      out before, and is listed under its name. */
  lemma CreateTagFresh(t: Tables, name: string)
    requires Valid(t) && CreateTagOutcome(t, name).Ok?
    ensures
      var n := CreateTagOutcome(t, name).value;
      && n > t.tagSeq
      && (forall tg :: tg in t.tags ==> tg.id < n)
      && Tag(n, name) in GetAllTags(AfterCreateTag(t, name))
  {
    var u := AfterCreateTag(t, name);
    SortByMembers(u.tags, NameBefore);
  }

  /** createTag fails exactly when the name is taken or no id is left. */
  lemma CreateTagFails(t: Tables, name: string)
    ensures CreateTagOutcome(t, name).Err? <==> name in TagNames(t.tags) || t.tagSeq >= MaxRowid
    ensures name in TagNames(t.tags) && t.tagSeq < MaxRowid ==> CreateTagOutcome(t, name) == Err(UniqueViolation)
  {
  }

  /** AUTOINCREMENT never hands out the id of a deleted tag again. */
  lemma DeletedTagIdNotReused(t: Tables, id: int, name: string)
    requires Valid(t) && id in TagIds(t.tags)
    requires CreateTagOutcome(AfterDeleteTag(t, id), name).Ok?
    ensures CreateTagOutcome(AfterDeleteTag(t, id), name).value > id
  {
    var tg :| tg in t.tags && TagIdKey(tg) == id;
  }

  /** Deleting a tag removes it and its links, and takes it off every
      prompt's tag list, which otherwise stays as it was; prompts and
      blocks are untouched. */
  lemma DeleteTagCascade(t: Tables, id: int, pid: string)
    requires Valid(t)
    ensures id !in TagIds(AfterDeleteTag(t, id).tags)
    ensures forall l :: l in AfterDeleteTag(t, id).links ==> l.tagId != id
    ensures forall tg :: tg in TagsOf(AfterDeleteTag(t, id), pid) <==> tg in TagsOf(t, pid) && tg.id != id
    ensures AfterDeleteTag(t, id).prompts == t.prompts && AfterDeleteTag(t, id).blocks == t.blocks
  {
    var u := AfterDeleteTag(t, id);
    DeleteTagKeepsValid(t, id);
    forall tg ensures tg in TagsOf(u, pid) <==> tg in TagsOf(t, pid) && tg.id != id {
      TagsOfMembers(u, pid, tg);
      TagsOfMembers(t, pid, tg);
    }
  }
}
