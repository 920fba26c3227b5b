/** The read-only queries of the data layer: listing prompts and tags,
    fetching one prompt with its blocks and tags, and the full export. */
module Queries {
  import opened Types
  import opened Sql
  import opened Schema

  /** ORDER BY updated_at DESC */
  predicate NewerFirst(a: Prompt, b: Prompt) { a.updatedAt > b.updatedAt }

  /** ORDER BY sort_order */
  predicate LowerSortOrder(a: Block, b: Block) { a.sortOrder < b.sortOrder }

  /** ORDER BY name */
  predicate NameBefore(a: Tag, b: Tag) { StrLess(a.name, b.name) }

  /** WHERE prompt_id = pid, on blocks and on links. */
  function OwnedBy(pid: string): Block -> bool { (b: Block) => b.promptId == pid }
  function LinkOf(pid: string): PromptTag -> bool { (l: PromptTag) => l.promptId == pid }

  /** Every prompt, most recently updated first. */
  function GetAllPrompts(t: Tables): seq<Prompt> {
    SortBy(t.prompts, NewerFirst)
  }

  /** Every tag, by name. */
  function GetAllTags(t: Tables): seq<Tag> {
    SortBy(t.tags, NameBefore)
  }

  /** The first row with this id (`.get` on `WHERE id = ?`). */
  function FindPrompt(ps: seq<Prompt>, id: string): (r: Option<Prompt>)
    ensures r.Some? <==> id in PromptIds(ps)
    ensures r.Some? ==> r.value in ps && r.value.id == id
  {
    if ps == [] then None
    else if ps[0].id == id then
      assert PromptKey(ps[0]) in PromptIds(ps);
      Some(ps[0])
    else
      assert ps == [ps[0]] + ps[1..];
      KeySetConcat([ps[0]], ps[1..], PromptKey);
      FindPrompt(ps[1..], id)
  }

  /** The tag row a link's tag_id refers to, if any. */
  function FindTag(ts: seq<Tag>, id: int): (r: Option<Tag>)
    ensures r.Some? <==> id in TagIds(ts)
    ensures r.Some? ==> r.value in ts && r.value.id == id
  {
    if ts == [] then None
    else if ts[0].id == id then
      assert TagIdKey(ts[0]) in TagIds(ts);
      Some(ts[0])
    else
      assert ts == [ts[0]] + ts[1..];
      KeySetConcat([ts[0]], ts[1..], TagIdKey);
      FindTag(ts[1..], id)
  }

  /** `tags t JOIN prompt_tags pt ON t.id = pt.tag_id`, driven by the links. */
  function JoinTags(ls: seq<PromptTag>, ts: seq<Tag>): seq<Tag> {
    if ls == [] then []
    else
      var rest := JoinTags(ls[..|ls| - 1], ts);
      match FindTag(ts, ls[|ls| - 1].tagId)
      case Some(tg) => rest + [tg]
      case None => rest
  }

  /** The blocks of a prompt in display order. */
  function BlocksOf(t: Tables, pid: string): seq<Block> {
    SortBy(Filter(t.blocks, OwnedBy(pid)), LowerSortOrder)
  }

  /** The tags of a prompt. SQL gives this join no order; the model lists
      them in the order of the link rows. */
  function TagsOf(t: Tables, pid: string): seq<Tag> {
    JoinTags(Filter(t.links, LinkOf(pid)), t.tags)
  }

  /** One prompt with its blocks and tags, or `None` when no row has the id. */
  function GetPromptById(t: Tables, id: string): Option<PromptWithDetails> {
    match FindPrompt(t.prompts, id)
    case None => None
    case Some(p) => Some(PromptWithDetails(p, BlocksOf(t, id), TagsOf(t, id)))
  }

  /** Every prompt in listing order, each with its details, and every tag. */
  function ExportAll(t: Tables): Snapshot {
    var ps := GetAllPrompts(t);
    SortByMembers(t.prompts, NewerFirst);
    assert forall i :: 0 <= i < |ps| ==> ps[i] in t.prompts;
    Snapshot(seq(|ps|, i requires 0 <= i < |ps| => GetPromptById(t, ps[i].id).value), GetAllTags(t))
  }

  // ---------------------------------------------------------------------
  // What the queries promise.

  /** The listing holds every prompt exactly as often as the table does,
      newest first. */
  lemma GetAllPromptsOrder(t: Tables)
    ensures multiset(GetAllPrompts(t)) == multiset(t.prompts)
    ensures forall i, j :: 0 <= i < j < |GetAllPrompts(t)| ==>
      GetAllPrompts(t)[i].updatedAt >= GetAllPrompts(t)[j].updatedAt
  {
    assert StrictWeakOrder(NewerFirst);
    SortBySorted(t.prompts, NewerFirst);
  }

  lemma NameBeforeIsStrictWeakOrder()
    ensures StrictWeakOrder(NameBefore)
  {
    forall a: Tag, b: Tag | NameBefore(a, b) ensures !NameBefore(b, a) {
      StrLessTotal(a.name, b.name);
    }
    forall a: Tag, b: Tag, c: Tag | NameBefore(a, c) ensures NameBefore(a, b) || NameBefore(b, c) {
      StrLessTotal(a.name, b.name);
      StrLessTotal(b.name, c.name);
      if StrLess(b.name, a.name) && StrLess(c.name, b.name) {
        StrLessTransitive(c.name, b.name, a.name);
        StrLessTotal(a.name, c.name);
      }
    }
  }

  /** The tag list holds every tag, in strictly ascending name order (names
      are unique). */
  lemma GetAllTagsOrder(t: Tables)
    requires Valid(t)
    ensures multiset(GetAllTags(t)) == multiset(t.tags)
    ensures forall i, j :: 0 <= i < j < |GetAllTags(t)| ==>
      StrLess(GetAllTags(t)[i].name, GetAllTags(t)[j].name)
  {
    var r := GetAllTags(t);
    NameBeforeIsStrictWeakOrder();
    SortBySorted(t.tags, NameBefore);
    SortByDistinctBy(t.tags, NameBefore, TagNameKey);
    forall i, j | 0 <= i < j < |r| ensures StrLess(r[i].name, r[j].name) {
      assert !NameBefore(r[j], r[i]);
      assert TagNameKey(r[i]) != TagNameKey(r[j]);
      StrLessTotal(r[i].name, r[j].name);
    }
  }

  /** A prompt's blocks are all of its block rows, by ascending sort_order. */
  lemma BlocksOfOrder(t: Tables, pid: string)
    ensures multiset(BlocksOf(t, pid)) == multiset(Filter(t.blocks, OwnedBy(pid)))
    ensures forall i, j :: 0 <= i < j < |BlocksOf(t, pid)| ==>
      BlocksOf(t, pid)[i].sortOrder <= BlocksOf(t, pid)[j].sortOrder
  {
    assert StrictWeakOrder(LowerSortOrder);
    SortBySorted(Filter(t.blocks, OwnedBy(pid)), LowerSortOrder);
  }

  /** With unique ids, looking a prompt up by its id finds that very row. */
  lemma FindPromptUnique(ps: seq<Prompt>, p: Prompt)
    requires DistinctBy(ps, PromptKey) && p in ps
    ensures FindPrompt(ps, p.id) == Some(p)
  {
    assert PromptKey(p) in PromptIds(ps);
    var q := FindPrompt(ps, p.id).value;
    KeyDetermines(ps, PromptKey, p, q);
  }

  lemma FindTagUnique(ts: seq<Tag>, tg: Tag)
    requires DistinctBy(ts, TagIdKey) && tg in ts
    ensures FindTag(ts, tg.id) == Some(tg)
  {
    assert TagIdKey(tg) in TagIds(ts);
    var q := FindTag(ts, tg.id).value;
    KeyDetermines(ts, TagIdKey, tg, q);
  }

  /** When every link names an existing tag, the join yields one tag per
      link, in link order. */
  lemma {:induction false} JoinTagsAll(ls: seq<PromptTag>, ts: seq<Tag>)
    requires forall l :: l in ls ==> l.tagId in TagIds(ts)
    ensures |JoinTags(ls, ts)| == |ls|
    ensures forall i :: 0 <= i < |ls| ==> JoinTags(ls, ts)[i].id == ls[i].tagId && JoinTags(ls, ts)[i] in ts
  {
    if ls != [] {
      var init, l := ls[..|ls| - 1], ls[|ls| - 1];
      assert ls == init + [l];
      JoinTagsAll(init, ts);
      var tg := FindTag(ts, l.tagId).value;
      assert JoinTags(ls, ts) == JoinTags(init, ts) + [tg];
    }
  }

  /** The tags a prompt carries, by way of its links. */
  lemma TagsOfMembers(t: Tables, pid: string, tg: Tag)
    requires Valid(t)
    ensures tg in TagsOf(t, pid) <==> tg in t.tags && PromptTag(pid, tg.id) in t.links
  {
    var ls := Filter(t.links, LinkOf(pid));
    JoinTagsAll(ls, t.tags);
    var r := TagsOf(t, pid);
    if tg in r {
      var i :| 0 <= i < |r| && r[i] == tg;
      assert ls[i] in ls;
    }
    if tg in t.tags && PromptTag(pid, tg.id) in t.links {
      var l := PromptTag(pid, tg.id);
      assert l in ls;
      var i :| 0 <= i < |ls| && ls[i] == l;
      KeyDetermines(t.tags, TagIdKey, r[i], tg);
    }
  }
}
