/** Exporting a valid store and importing the export commits, and gives back
    the same rows in every table. */
module RoundTrip {
  import opened Types
  import opened Sql
  import opened Schema
  import opened Queries
  import opened Transactions
  import opened Integrity

  /** One exported prompt: the row with its blocks and its tags. */
  function Details(t: Tables, p: Prompt): PromptWithDetails {
    PromptWithDetails(p, BlocksOf(t, p.id), TagsOf(t, p.id))
  }

  function DetailsOf(t: Tables, ps: seq<Prompt>): seq<PromptWithDetails> {
    seq(|ps|, i requires 0 <= i < |ps| => Details(t, ps[i]))
  }

  lemma DetailsById(t: Tables, p: Prompt)
    requires DistinctBy(t.prompts, PromptKey) && p in t.prompts
    ensures GetPromptById(t, p.id) == Some(Details(t, p))
  {
    FindPromptUnique(t.prompts, p);
  }

  /** The export lists each prompt of the listing with its details. */
  lemma ExportShape(t: Tables)
    requires Valid(t)
    ensures ExportAll(t).prompts == DetailsOf(t, GetAllPrompts(t))
  {
    var ps := GetAllPrompts(t);
    var e, d := ExportAll(t).prompts, DetailsOf(t, ps);
    SortByMembers(t.prompts, NewerFirst);
    assert |e| == |d|;
    forall i | 0 <= i < |ps| ensures e[i] == d[i] {
      DetailsById(t, ps[i]);
    }
  }

  /** The blocks exported with a prompt are exactly the prompt's blocks. */
  lemma BlocksOfMembers(t: Tables, pid: string)
    ensures forall b :: b in BlocksOf(t, pid) <==> b in t.blocks && b.promptId == pid
  {
    SortByMembers(Filter(t.blocks, OwnedBy(pid)), LowerSortOrder);
  }

  /** The links importAll recreates from an exported prompt are exactly the
      prompt's links. */
  lemma DetailLinksOf(t: Tables, p: Prompt)
    requires Valid(t)
    ensures DetailLinks(Details(t, p)) == Filter(t.links, LinkOf(p.id))
  {
    var ls := Filter(t.links, LinkOf(p.id));
    JoinTagsAll(ls, t.tags);
    var r := DetailLinks(Details(t, p));
    forall i | 0 <= i < |ls| ensures r[i] == ls[i] {
      assert ls[i] in ls;
    }
  }

  /** The inserts for one more exported prompt pass their checks when its
      id is not among those inserted before. */
  lemma ImportStepOfDetails(t: Tables, before: seq<PromptWithDetails>, init: seq<Prompt>, p: Prompt, tags: seq<Tag>)
    requires Valid(t) && TagIds(tags) == TagIds(t.tags) && p in t.prompts
    requires PromptsImportable(before, tags) && ImportedPrompts(before) == init
    requires p.id !in PromptIds(init)
    requires forall b :: b in ImportedBlocks(before) ==> b in t.blocks && b.promptId in PromptIds(init)
    requires forall l :: l in ImportedLinks(before) ==> l in t.links && l.promptId in PromptIds(init)
    ensures ImportStep(before, Details(t, p), tags)
  {
    var d := Details(t, p);
    ImportedValid(before, tags);
    KeySetConcat(init, [p], PromptKey);
    SingletonKeys(p, PromptKey);
    BlocksOfMembers(t, p.id);
    DetailLinksOf(t, p);
    var bs := ImportedBlocks(before);
    assert DistinctBy(bs + d.blocks, BlockKey) by {
      FilterDistinctBy(t.blocks, OwnedBy(p.id), BlockKey);
      SortByDistinctBy(Filter(t.blocks, OwnedBy(p.id)), LowerSortOrder, BlockKey);
      forall k | k in KeySet(bs, BlockKey) ensures k !in KeySet(d.blocks, BlockKey) {
        var x :| x in bs && BlockKey(x) == k;
        forall y | y in d.blocks ensures BlockKey(y) != k {
          assert x.promptId != y.promptId;
          DistinctKeys(t.blocks, BlockKey, x, y);
        }
      }
      DistinctByConcat(bs, d.blocks, BlockKey);
    }
    assert Distinct(ImportedLinks(before) + DetailLinks(d)) by {
      FilterDistinct(t.links, LinkOf(p.id));
      DistinctConcat(ImportedLinks(before), DetailLinks(d));
    }
  }

  lemma DetailsOfSnoc(t: Tables, ps: seq<Prompt>, p: Prompt)
    ensures DetailsOf(t, ps + [p]) == DetailsOf(t, ps) + [Details(t, p)]
  {
  }

  lemma PromptIdsSnoc(ps: seq<Prompt>, p: Prompt)
    ensures PromptIds(ps + [p]) == PromptIds(ps) + {p.id}
  {
    KeySetConcat(ps, [p], PromptKey);
    SingletonKeys(p, PromptKey);
  }

  lemma ImportedBlocksOfDetails(t: Tables, init: seq<Prompt>, p: Prompt)
    requires forall b :: b in ImportedBlocks(DetailsOf(t, init)) <==> b in t.blocks && b.promptId in PromptIds(init)
    ensures forall b :: b in ImportedBlocks(DetailsOf(t, init + [p])) <==> b in t.blocks && b.promptId in PromptIds(init + [p])
  {
    var ds := DetailsOf(t, init + [p]);
    DetailsOfSnoc(t, init, p);
    assert ds[..|ds| - 1] == DetailsOf(t, init);
    PromptIdsSnoc(init, p);
    BlocksOfMembers(t, p.id);
  }

  lemma ImportedLinksOfDetails(t: Tables, init: seq<Prompt>, p: Prompt)
    requires Valid(t)
    requires forall l :: l in ImportedLinks(DetailsOf(t, init)) <==> l in t.links && l.promptId in PromptIds(init)
    ensures forall l :: l in ImportedLinks(DetailsOf(t, init + [p])) <==> l in t.links && l.promptId in PromptIds(init + [p])
  {
    var ds := DetailsOf(t, init + [p]);
    DetailsOfSnoc(t, init, p);
    assert ds[..|ds| - 1] == DetailsOf(t, init);
    PromptIdsSnoc(init, p);
    DetailLinksOf(t, p);
  }

  lemma ImportedPromptsOfDetails(t: Tables, init: seq<Prompt>, p: Prompt, tags: seq<Tag>)
    requires Valid(t) && TagIds(tags) == TagIds(t.tags) && p in t.prompts
    requires p.id !in PromptIds(init)
    requires PromptsImportable(DetailsOf(t, init), tags) && ImportedPrompts(DetailsOf(t, init)) == init
    requires forall b :: b in ImportedBlocks(DetailsOf(t, init)) <==> b in t.blocks && b.promptId in PromptIds(init)
    requires forall l :: l in ImportedLinks(DetailsOf(t, init)) <==> l in t.links && l.promptId in PromptIds(init)
    ensures PromptsImportable(DetailsOf(t, init + [p]), tags)
    ensures ImportedPrompts(DetailsOf(t, init + [p])) == init + [p]
  {
    var ds := DetailsOf(t, init + [p]);
    DetailsOfSnoc(t, init, p);
    assert ds[..|ds| - 1] == DetailsOf(t, init);
    ImportStepOfDetails(t, DetailsOf(t, init), init, p, tags);
  }

  /** Importing the details of distinct prompts of a valid store commits,
      and inserts those prompts, and their blocks and links. */
  lemma {:induction false} ImportOfDetails(t: Tables, ps: seq<Prompt>, tags: seq<Tag>)
    requires Valid(t) && TagIds(tags) == TagIds(t.tags)
    requires DistinctBy(ps, PromptKey) && forall p :: p in ps ==> p in t.prompts
    ensures PromptsImportable(DetailsOf(t, ps), tags)
    ensures ImportedPrompts(DetailsOf(t, ps)) == ps
    ensures forall b :: b in ImportedBlocks(DetailsOf(t, ps)) <==> b in t.blocks && b.promptId in PromptIds(ps)
    ensures forall l :: l in ImportedLinks(DetailsOf(t, ps)) <==> l in t.links && l.promptId in PromptIds(ps)
  {
    if ps != [] {
      var init, p := ps[..|ps| - 1], ps[|ps| - 1];
      assert ps == init + [p];
      DistinctBySnoc(init, p, PromptKey);
      ImportOfDetails(t, init, tags);
      ImportedPromptsOfDetails(t, init, p, tags);
      ImportedBlocksOfDetails(t, init, p);
      ImportedLinksOfDetails(t, init, p);
    }
  }

  /** An export of a valid store imports without error, and the store it
      produces holds the same prompts, blocks, tags and links as the one
      exported (whatever the store it is imported into). */
  lemma ExportImportRoundTrip(t: Tables, t0: Tables)
    requires Valid(t)
    ensures ImportCommits(ExportAll(t))
    ensures
      var u := AfterImport(t0, ExportAll(t));
      && multiset(u.prompts) == multiset(t.prompts)
      && multiset(u.tags) == multiset(t.tags)
      && (forall b :: b in u.blocks <==> b in t.blocks)
      && (forall l :: l in u.links <==> l in t.links)
  {
    var ps := GetAllPrompts(t);
    var ts := GetAllTags(t);
    ExportShape(t);
    SortByMembers(t.prompts, NewerFirst);
    SortByMembers(t.tags, NameBefore);
    SortByDistinctBy(t.prompts, NewerFirst, PromptKey);
    SortByDistinctBy(t.tags, NameBefore, TagIdKey);
    SortByDistinctBy(t.tags, NameBefore, TagNameKey);
    assert PromptIds(ps) == PromptIds(t.prompts);
    assert TagIds(ts) == TagIds(t.tags);
    ImportOfDetails(t, ps, ts);
  }
}
