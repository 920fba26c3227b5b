/** The two groupings the UI shows: prompts by cluster and prompts by tag.
    Each walks a row list once and builds a JavaScript `Map`, whose keys
    keep their insertion order; the model returns that order next to the
    map. */
module Grouping {
  import opened Types
  import opened Sql
  import opened Schema
  import opened Queries

  /** A `Map<string, Prompt[]>`: the keys in insertion order, and the map. */
  datatype Groups = Groups(keys: seq<string>, members: map<string, seq<Prompt>>)

  /** The key of prompts with no cluster ("unclassified"). */
  const Unclustered: string := "\U{672A}\U{5206}\U{7C7B}"

  /** The key of prompts with no tag ("untagged"). */
  const Untagged: string := "\U{672A}\U{6807}\U{8BB0}"

  /** The distinct keys of a list, in order of first appearance: the order
      in which a `Map` receives them. */
  function FirstSeen(ks: seq<string>): (r: seq<string>)
    ensures forall k :: k in r <==> k in ks
  {
    if ks == [] then []
    else
      var r := FirstSeen(ks[..|ks| - 1]);
      var k := ks[|ks| - 1];
      assert ks == ks[..|ks| - 1] + [k];
      if k in r then r else r + [k]
  }

  /** A key enters the `Map` once. */
  lemma {:induction false} FirstSeenDistinct(ks: seq<string>)
    ensures Distinct(FirstSeen(ks))
  {
    if ks != [] {
      FirstSeenDistinct(ks[..|ks| - 1]);
      DistinctSnoc(FirstSeen(ks[..|ks| - 1]), ks[|ks| - 1]);
    }
  }

  // ---------------------------------------------------------------------
  // getPromptsByCluster

  /** `p.cluster_group || '未分类'` */
  function ClusterKey(p: Prompt): string {
    if p.clusterGroup.Some? && p.clusterGroup.value != "" then p.clusterGroup.value else Unclustered
  }

  function InCluster(key: string): Prompt -> bool { (p: Prompt) => ClusterKey(p) == key }

  function ClusterKeys(ps: seq<Prompt>): seq<string> {
    seq(|ps|, i requires 0 <= i < |ps| => ClusterKey(ps[i]))
  }

  lemma FirstSeenSnoc(ks: seq<string>, k: string)
    ensures FirstSeen(ks + [k]) == if k in FirstSeen(ks) then FirstSeen(ks) else FirstSeen(ks) + [k]
  {
    assert (ks + [k])[..|ks|] == ks;
  }

  /** The groups by cluster of a listing: each key of the listing, mapped
      to the listed prompts with that key, in listing order. */
  function ClusterGroups(ps: seq<Prompt>): map<string, seq<Prompt>> {
    map k | k in ClusterKeys(ps) :: Filter(ps, InCluster(k))
  }

  lemma ClusterFilterSnoc(ps: seq<Prompt>, p: Prompt, k: string)
    ensures Filter(ps + [p], InCluster(k)) == Filter(ps, InCluster(k)) + (if ClusterKey(p) == k then [p] else [])
  {
    FilterConcat(ps, [p], InCluster(k));
    assert Filter([p], InCluster(k)) == if ClusterKey(p) == k then [p] else [];
  }

  /** A key that has not been seen has no prompt. */
  lemma ClusterUnseen(ps: seq<Prompt>, k: string)
    requires k !in ClusterKeys(ps)
    ensures Filter(ps, InCluster(k)) == []
  {
    forall q | q in ps ensures !InCluster(k)(q) {
      var j :| 0 <= j < |ps| && ps[j] == q;
      assert ClusterKeys(ps)[j] == ClusterKey(q);
    }
    FilterNone(ps, InCluster(k));
  }

  lemma ClusterGroupAfter(ps: seq<Prompt>, p: Prompt, k: string)
    requires k in ClusterGroups(ps + [p])
    ensures k != ClusterKey(p) ==> k in ClusterGroups(ps)
    ensures ClusterGroups(ps + [p])[k] ==
      if k != ClusterKey(p) then ClusterGroups(ps)[k]
      else (if k in ClusterGroups(ps) then ClusterGroups(ps)[k] else []) + [p]
  {
    assert ClusterKeys(ps + [p]) == ClusterKeys(ps) + [ClusterKey(p)];
    ClusterFilterSnoc(ps, p, k);
    if k !in ClusterGroups(ps) {
      ClusterUnseen(ps, k);
    }
  }

  lemma ClusterKeysSnoc(ps: seq<Prompt>, p: Prompt)
    ensures FirstSeen(ClusterKeys(ps + [p])) ==
      if ClusterKey(p) in FirstSeen(ClusterKeys(ps)) then FirstSeen(ClusterKeys(ps))
      else FirstSeen(ClusterKeys(ps)) + [ClusterKey(p)]
  {
    assert ClusterKeys(ps + [p]) == ClusterKeys(ps) + [ClusterKey(p)];
    FirstSeenSnoc(ClusterKeys(ps), ClusterKey(p));
  }

  lemma ClusterGroupsKeys(ps: seq<Prompt>, p: Prompt)
    ensures ClusterGroups(ps + [p]).Keys == ClusterGroups(ps).Keys + {ClusterKey(p)}
  {
    assert ClusterKeys(ps + [p]) == ClusterKeys(ps) + [ClusterKey(p)];
  }

  /** One more prompt goes at the end of the group of its key, which is
      opened empty when the key is new. */
  lemma ClusterGroupsSnoc(ps: seq<Prompt>, p: Prompt)
    ensures ClusterGroups(ps + [p]) ==
      var m := ClusterGroups(ps);
      var key := ClusterKey(p);
      m[key := (if key in m then m[key] else []) + [p]]
  {
    var key := ClusterKey(p);
    var m, m' := ClusterGroups(ps), ClusterGroups(ps + [p]);
    var e := m[key := (if key in m then m[key] else []) + [p]];
    ClusterGroupsKeys(ps, p);
    forall k | k in m' ensures m'[k] == e[k] {
      ClusterGroupAfter(ps, p, k);
    }
  }

  /** The `forEach` of getPromptsByCluster: each prompt is pushed into the
      group of its key, the group being opened when the key is new. */
  method GroupByCluster(ps: seq<Prompt>) returns (g: Groups)
    ensures g.keys == FirstSeen(ClusterKeys(ps))
    ensures g.members == ClusterGroups(ps)
  {
    var keys: seq<string> := [];
    var members: map<string, seq<Prompt>> := map[];
    for i := 0 to |ps|
      invariant keys == FirstSeen(ClusterKeys(ps[..i]))
      invariant members == ClusterGroups(ps[..i])
    {
      var p := ps[i];
      var key := ClusterKey(p);
      assert ps[..i + 1] == ps[..i] + [p];
      ClusterKeysSnoc(ps[..i], p);
      ClusterGroupsSnoc(ps[..i], p);
      var existing := if key in members then members[key] else [];
      if key !in members {
        keys := keys + [key];
      }
      members := members[key := existing + [p]];
    }
    assert ps[..|ps|] == ps;
    return Groups(keys, members);
  }

  /** getPromptsByCluster: the listing split by cluster key, the keys in
      order of first appearance. */
  method GetPromptsByCluster(t: Tables) returns (g: Groups)
    ensures g.keys == FirstSeen(ClusterKeys(GetAllPrompts(t)))
    ensures g.members == ClusterGroups(GetAllPrompts(t))
  {
    g := GroupByCluster(GetAllPrompts(t));
  }

  /** The groups by cluster partition the listing: every key is a key of
      the listing, no group is empty, every prompt is in the group of its
      own key, and a group holds only prompts of its key. */
  lemma ClusterGroupsPartition(ps: seq<Prompt>)
    ensures forall k :: k in ClusterGroups(ps) <==> exists p :: p in ps && ClusterKey(p) == k
    ensures forall k :: k in ClusterGroups(ps) ==> ClusterGroups(ps)[k] != []
    ensures forall p :: p in ps ==> ClusterKey(p) in ClusterGroups(ps) && p in ClusterGroups(ps)[ClusterKey(p)]
    ensures forall k, p :: k in ClusterGroups(ps) && p in ClusterGroups(ps)[k] ==> ClusterKey(p) == k
  {
    var m := ClusterGroups(ps);
    forall k | k in m ensures exists p :: p in ps && ClusterKey(p) == k {
      var j :| 0 <= j < |ps| && ClusterKeys(ps)[j] == k;
      assert ps[j] in ps;
    }
    forall p | p in ps ensures ClusterKey(p) in m {
      var j :| 0 <= j < |ps| && ps[j] == p;
      assert ClusterKeys(ps)[j] == ClusterKey(p);
    }
    forall k | k in m ensures m[k] != [] {
      var p :| p in ps && ClusterKey(p) == k;
      assert p in m[k];
    }
  }

  // ---------------------------------------------------------------------
  // getPromptsByTag

  /** A row of `prompts p LEFT JOIN prompt_tags pt LEFT JOIN tags t`: a
      prompt with the name of one of its tags, or with NULL. */
  datatype TagRow = TagRow(prompt: Prompt, tagName: Option<string>)

  function NameOf(tg: Option<Tag>): Option<string> {
    if tg.Some? then Some(tg.value.name) else None
  }

  /** The joined rows of one prompt: one per link, or a single row with a
      NULL name when it has no link. */
  function RowsOf(t: Tables, p: Prompt): seq<TagRow> {
    var ls := Filter(t.links, LinkOf(p.id));
    if ls == [] then [TagRow(p, None)]
    else seq(|ls|, i requires 0 <= i < |ls| => TagRow(p, NameOf(FindTag(t.tags, ls[i].tagId))))
  }

  function JoinRows(t: Tables, ps: seq<Prompt>): seq<TagRow> {
    if ps == [] then [] else JoinRows(t, ps[..|ps| - 1]) + RowsOf(t, ps[|ps| - 1])
  }

  /** ORDER BY t.name, p.updated_at DESC; a NULL name sorts first. */
  predicate RowBefore(a: TagRow, b: TagRow) {
    if a.tagName == b.tagName then a.prompt.updatedAt > b.prompt.updatedAt
    else if a.tagName.None? then true
    else if b.tagName.None? then false
    else StrLess(a.tagName.value, b.tagName.value)
  }

  /** The rows of the query, in their order. */
  function TagRows(t: Tables): seq<TagRow> {
    SortBy(JoinRows(t, t.prompts), RowBefore)
  }

  /** The order of the query is a strict weak order on rows. */
  lemma RowBeforeIsStrictWeakOrder()
    ensures StrictWeakOrder(RowBefore)
  {
    forall a: TagRow, b: TagRow | RowBefore(a, b) ensures !RowBefore(b, a) {
      if a.tagName != b.tagName && a.tagName.Some? && b.tagName.Some? {
        StrLessTotal(a.tagName.value, b.tagName.value);
      }
    }
    forall a: TagRow, b: TagRow, c: TagRow | RowBefore(a, c) ensures RowBefore(a, b) || RowBefore(b, c) {
      if a.tagName.Some? && b.tagName.Some? && c.tagName.Some? {
        var x, y, z := a.tagName.value, b.tagName.value, c.tagName.value;
        StrLessTotal(x, y);
        StrLessTotal(y, z);
        StrLessTotal(x, z);
        if StrLess(y, x) && StrLess(z, y) {
          StrLessTransitive(z, y, x);
        }
      }
    }
  }

  /** The rows of the query are every joined row, ordered by tag name with
      NULL first, and by updated_at descending under one name. */
  lemma TagRowsOrder(t: Tables)
    ensures multiset(TagRows(t)) == multiset(JoinRows(t, t.prompts))
    ensures forall i, j :: 0 <= i < j < |TagRows(t)| ==>
      var a, b := TagRows(t)[i], TagRows(t)[j];
      && (b.tagName.None? ==> a.tagName.None?)
      && (a.tagName.Some? && b.tagName.Some? && a.tagName != b.tagName ==>
            StrLess(a.tagName.value, b.tagName.value))
      && (a.tagName == b.tagName ==> a.prompt.updatedAt >= b.prompt.updatedAt)
  {
    var rs := TagRows(t);
    RowBeforeIsStrictWeakOrder();
    SortBySorted(JoinRows(t, t.prompts), RowBefore);
    forall i, j | 0 <= i < j < |rs| && rs[i].tagName.Some? && rs[j].tagName.Some? && rs[i].tagName != rs[j].tagName
      ensures StrLess(rs[i].tagName.value, rs[j].tagName.value)
    {
      assert !RowBefore(rs[j], rs[i]);
      StrLessTotal(rs[i].tagName.value, rs[j].tagName.value);
    }
  }

  /** `row.tag_name || '未标记'` */
  function TagKey(r: TagRow): string {
    if r.tagName.Some? && r.tagName.value != "" then r.tagName.value else Untagged
  }

  function UnderTag(key: string): TagRow -> bool { (r: TagRow) => TagKey(r) == key }

  function TagKeys(rs: seq<TagRow>): seq<string> {
    seq(|rs|, i requires 0 <= i < |rs| => TagKey(rs[i]))
  }

  function RowPrompts(rs: seq<TagRow>): seq<Prompt> {
    seq(|rs|, i requires 0 <= i < |rs| => rs[i].prompt)
  }

  /** `if (!group.some(x => x.id === p.id)) group.push(p)` */
  function PushNew(group: seq<Prompt>, p: Prompt): seq<Prompt> {
    if p.id in PromptIds(group) then group else group + [p]
  }

  /** The prompts in order, each id kept at its first occurrence only. */
  function Dedup(ps: seq<Prompt>): seq<Prompt> {
    if ps == [] then [] else PushNew(Dedup(ps[..|ps| - 1]), ps[|ps| - 1])
  }

  /** `Dedup` keeps only listed prompts, and keeps every listed id. */
  lemma {:induction false} DedupKeeps(ps: seq<Prompt>)
    ensures forall p :: p in Dedup(ps) ==> p in ps
    ensures forall p :: p in ps ==> p.id in PromptIds(Dedup(ps))
  {
    if ps != [] {
      var init, p := ps[..|ps| - 1], ps[|ps| - 1];
      var r := Dedup(init);
      DedupKeeps(init);
      assert ps == init + [p];
      KeySetConcat(r, [p], PromptKey);
      assert PromptKey(p) in KeySet([p], PromptKey);
    }
  }

  /** What `Dedup` keeps has no repeated id. */
  lemma {:induction false} DedupDistinct(ps: seq<Prompt>)
    ensures DistinctBy(Dedup(ps), PromptKey)
  {
    if ps != [] {
      DedupDistinct(ps[..|ps| - 1]);
      DistinctBySnoc(Dedup(ps[..|ps| - 1]), ps[|ps| - 1], PromptKey);
    }
  }

  /** The groups by tag of the rows: each key of the rows, mapped to the
      prompts of the rows with that key, in row order, each id once. */
  function TagGroups(rs: seq<TagRow>): map<string, seq<Prompt>> {
    map k | k in TagKeys(rs) :: Dedup(RowPrompts(Filter(rs, UnderTag(k))))
  }

  lemma TagKeysSnoc(rs: seq<TagRow>, r: TagRow)
    ensures FirstSeen(TagKeys(rs + [r])) ==
      if TagKey(r) in FirstSeen(TagKeys(rs)) then FirstSeen(TagKeys(rs))
      else FirstSeen(TagKeys(rs)) + [TagKey(r)]
  {
    assert TagKeys(rs + [r]) == TagKeys(rs) + [TagKey(r)];
    FirstSeenSnoc(TagKeys(rs), TagKey(r));
  }

  lemma TagFilterSnoc(rs: seq<TagRow>, r: TagRow, k: string)
    ensures Filter(rs + [r], UnderTag(k)) == Filter(rs, UnderTag(k)) + (if TagKey(r) == k then [r] else [])
  {
    FilterConcat(rs, [r], UnderTag(k));
    assert Filter([r], UnderTag(k)) == if TagKey(r) == k then [r] else [];
  }

  /** A key that has not been seen has no row. */
  lemma TagUnseen(rs: seq<TagRow>, k: string)
    requires k !in TagKeys(rs)
    ensures Filter(rs, UnderTag(k)) == []
  {
    forall q | q in rs ensures !UnderTag(k)(q) {
      var j :| 0 <= j < |rs| && rs[j] == q;
      assert TagKeys(rs)[j] == TagKey(q);
    }
    FilterNone(rs, UnderTag(k));
  }

  lemma DedupSnoc(ps: seq<Prompt>, p: Prompt)
    ensures Dedup(ps + [p]) == PushNew(Dedup(ps), p)
  {
    assert (ps + [p])[..|ps|] == ps;
  }

  lemma RowPromptsSnoc(rs: seq<TagRow>, r: TagRow)
    ensures RowPrompts(rs + [r]) == RowPrompts(rs) + [r.prompt]
  {
  }

  /** The group of the new row's key: its old group, or none, with the
      row's prompt pushed unless its id is there. */
  lemma TagGroupOfNewRow(rs: seq<TagRow>, r: TagRow)
    ensures Dedup(RowPrompts(Filter(rs + [r], UnderTag(TagKey(r))))) ==
      PushNew(if TagKey(r) in TagGroups(rs) then TagGroups(rs)[TagKey(r)] else [], r.prompt)
  {
    var k := TagKey(r);
    var before := Filter(rs, UnderTag(k));
    TagFilterSnoc(rs, r, k);
    if k !in TagGroups(rs) {
      TagUnseen(rs, k);
    }
    RowPromptsSnoc(before, r);
    DedupSnoc(RowPrompts(before), r.prompt);
  }

  lemma TagGroupAfter(rs: seq<TagRow>, r: TagRow, k: string)
    requires k in TagGroups(rs + [r])
    ensures k != TagKey(r) ==> k in TagGroups(rs)
    ensures TagGroups(rs + [r])[k] ==
      if k != TagKey(r) then TagGroups(rs)[k]
      else PushNew(if k in TagGroups(rs) then TagGroups(rs)[k] else [], r.prompt)
  {
    assert TagKeys(rs + [r]) == TagKeys(rs) + [TagKey(r)];
    if k == TagKey(r) {
      TagGroupOfNewRow(rs, r);
    } else {
      TagFilterSnoc(rs, r, k);
    }
  }

  lemma TagGroupsKeys(rs: seq<TagRow>, r: TagRow)
    ensures TagGroups(rs + [r]).Keys == TagGroups(rs).Keys + {TagKey(r)}
  {
    assert TagKeys(rs + [r]) == TagKeys(rs) + [TagKey(r)];
  }

  /** One more row adds its prompt at the end of the group of its key,
      unless that group already holds the prompt's id. */
  lemma TagGroupsSnoc(rs: seq<TagRow>, r: TagRow)
    ensures TagGroups(rs + [r]) ==
      var m := TagGroups(rs);
      var key := TagKey(r);
      m[key := PushNew(if key in m then m[key] else [], r.prompt)]
  {
    var key := TagKey(r);
    var m, m' := TagGroups(rs), TagGroups(rs + [r]);
    var e := m[key := PushNew(if key in m then m[key] else [], r.prompt)];
    TagGroupsKeys(rs, r);
    forall k | k in m' ensures m'[k] == e[k] {
      TagGroupAfter(rs, r, k);
    }
  }

  /** The `forEach` of getPromptsByTag: each row's prompt is pushed into
      the group of the row's key unless that group already holds its id. */
  method GroupByTag(rows: seq<TagRow>) returns (g: Groups)
    ensures g.keys == FirstSeen(TagKeys(rows))
    ensures g.members == TagGroups(rows)
  {
    var keys: seq<string> := [];
    var members: map<string, seq<Prompt>> := map[];
    for i := 0 to |rows|
      invariant keys == FirstSeen(TagKeys(rows[..i]))
      invariant members == TagGroups(rows[..i])
    {
      var row := rows[i];
      var key := TagKey(row);
      assert rows[..i + 1] == rows[..i] + [row];
      TagKeysSnoc(rows[..i], row);
      TagGroupsSnoc(rows[..i], row);
      var existing := if key in members then members[key] else [];
      if key !in members {
        keys := keys + [key];
      }
      members := members[key := PushNew(existing, row.prompt)];
    }
    assert rows[..|rows|] == rows;
    return Groups(keys, members);
  }

  /** getPromptsByTag: the joined rows split by tag key, the keys in order
      of first appearance in the rows. */
  method GetPromptsByTag(t: Tables) returns (g: Groups)
    ensures g.keys == FirstSeen(TagKeys(TagRows(t)))
    ensures g.members == TagGroups(TagRows(t))
  {
    g := GroupByTag(TagRows(t));
  }

  /** No group by tag lists a prompt id twice. */
  lemma TagGroupsUnique(rs: seq<TagRow>)
    ensures forall k :: k in TagGroups(rs) ==> DistinctBy(TagGroups(rs)[k], PromptKey)
    ensures forall k :: k in TagGroups(rs) <==> exists r :: r in rs && TagKey(r) == k
  {
    forall k | k in TagGroups(rs) ensures DistinctBy(TagGroups(rs)[k], PromptKey) {
      DedupDistinct(RowPrompts(Filter(rs, UnderTag(k))));
    }
    forall k | k in TagGroups(rs) ensures exists r :: r in rs && TagKey(r) == k {
      var j :| 0 <= j < |rs| && TagKeys(rs)[j] == k;
      assert rs[j] in rs;
    }
    forall r | r in rs ensures TagKey(r) in TagGroups(rs) {
      var j :| 0 <= j < |rs| && rs[j] == r;
      assert TagKeys(rs)[j] == TagKey(r);
    }
  }

  // ---------------------------------------------------------------------
  // What the tag grouping means for the store.

  lemma {:induction false} JoinRowsMembers(t: Tables, ps: seq<Prompt>, r: TagRow)
    ensures r in JoinRows(t, ps) <==> r.prompt in ps && r in RowsOf(t, r.prompt)
  {
    if ps != [] {
      var init, p := ps[..|ps| - 1], ps[|ps| - 1];
      assert ps == init + [p];
      JoinRowsMembers(t, init, r);
      assert forall x :: x in RowsOf(t, p) ==> x.prompt == p;
    }
  }

  /** A prompt has a joined row with tag name `n` exactly when it is
      linked to a tag of that name. */
  lemma RowsOfNamed(t: Tables, p: Prompt, n: string)
    requires DistinctBy(t.tags, TagIdKey)
    ensures TagRow(p, Some(n)) in RowsOf(t, p) <==>
      exists tg :: tg in t.tags && tg.name == n && PromptTag(p.id, tg.id) in t.links
  {
    RowOfNameIsLinked(t, p, n);
    forall tg | tg in t.tags && tg.name == n && PromptTag(p.id, tg.id) in t.links
      ensures TagRow(p, Some(n)) in RowsOf(t, p)
    {
      LinkedTagHasRow(t, p, tg);
    }
  }

  lemma RowOfNameIsLinked(t: Tables, p: Prompt, n: string)
    ensures TagRow(p, Some(n)) in RowsOf(t, p) ==>
      exists tg :: tg in t.tags && tg.name == n && PromptTag(p.id, tg.id) in t.links
  {
    var ls := Filter(t.links, LinkOf(p.id));
    var rs := RowsOf(t, p);
    if ls != [] && TagRow(p, Some(n)) in rs {
      var i :| 0 <= i < |rs| && rs[i] == TagRow(p, Some(n));
      var tg := FindTag(t.tags, ls[i].tagId).value;
      assert ls[i] in ls;
      assert ls[i] == PromptTag(p.id, tg.id);
    }
  }

  lemma LinkedTagHasRow(t: Tables, p: Prompt, tg: Tag)
    requires DistinctBy(t.tags, TagIdKey) && tg in t.tags && PromptTag(p.id, tg.id) in t.links
    ensures TagRow(p, Some(tg.name)) in RowsOf(t, p)
  {
    var ls := Filter(t.links, LinkOf(p.id));
    assert PromptTag(p.id, tg.id) in ls;
    var i :| 0 <= i < |ls| && ls[i] == PromptTag(p.id, tg.id);
    FindTagUnique(t.tags, tg);
    assert RowsOf(t, p)[i] == TagRow(p, Some(tg.name));
  }

  /** With unique ids, dropping repeated ids drops no prompt. */
  lemma DedupMembers(ps: seq<Prompt>, all: seq<Prompt>, q: Prompt)
    requires DistinctBy(all, PromptKey) && forall p :: p in ps ==> p in all
    ensures q in Dedup(ps) <==> q in ps
  {
    DedupKeeps(ps);
    if q in ps {
      var r := Dedup(ps);
      var x :| x in r && PromptKey(x) == q.id;
      KeyDetermines(all, PromptKey, x, q);
    }
  }

  /** The prompts of the rows of a key: which joined rows carry them. */
  lemma GroupRowsMembers(t: Tables, k: string, q: Prompt)
    ensures q in RowPrompts(Filter(TagRows(t), UnderTag(k))) <==>
      exists r :: r in JoinRows(t, t.prompts) && TagKey(r) == k && r.prompt == q
  {
    var f := Filter(TagRows(t), UnderTag(k));
    SortByMembers(JoinRows(t, t.prompts), RowBefore);
    if q in RowPrompts(f) {
      var i :| 0 <= i < |f| && RowPrompts(f)[i] == q;
      assert f[i] in f;
    }
    forall r | r in JoinRows(t, t.prompts) && TagKey(r) == k && r.prompt == q ensures q in RowPrompts(f) {
      assert r in f;
      var i :| 0 <= i < |f| && f[i] == r;
      assert RowPrompts(f)[i] == q;
    }
  }

  /** A prompt is in the group of a key exactly when it is in the
      deduplicated prompts of that key's rows. */
  lemma TagGroupOf(t: Tables, k: string, q: Prompt)
    ensures (k in TagGroups(TagRows(t)) && q in TagGroups(TagRows(t))[k]) <==>
      q in Dedup(RowPrompts(Filter(TagRows(t), UnderTag(k))))
  {
    if q in Dedup(RowPrompts(Filter(TagRows(t), UnderTag(k)))) {
      DedupKeeps(RowPrompts(Filter(TagRows(t), UnderTag(k))));
      GroupRowsMembers(t, k, q);
      var r :| r in JoinRows(t, t.prompts) && TagKey(r) == k && r.prompt == q;
      SortByMembers(JoinRows(t, t.prompts), RowBefore);
      TagGroupsUnique(TagRows(t));
      assert r in TagRows(t);
    }
  }

  /** Every prompt of a group is a stored prompt. */
  lemma GroupPromptsStored(t: Tables, k: string)
    ensures forall p :: p in RowPrompts(Filter(TagRows(t), UnderTag(k))) ==> p in t.prompts
  {
    forall p | p in RowPrompts(Filter(TagRows(t), UnderTag(k))) ensures p in t.prompts {
      GroupRowsMembers(t, k, p);
      var r :| r in JoinRows(t, t.prompts) && TagKey(r) == k && r.prompt == p;
      JoinRowsMembers(t, t.prompts, r);
    }
  }

  /** Under a tag's name are exactly the prompts linked to a tag of that
      name (a name that is neither empty nor the untagged key). */
  lemma TagGroupMembers(t: Tables, k: string, q: Prompt)
    requires Valid(t) && k != "" && k != Untagged
    ensures (k in TagGroups(TagRows(t)) && q in TagGroups(TagRows(t))[k]) <==>
      q in t.prompts && exists tg :: tg in t.tags && tg.name == k && PromptTag(q.id, tg.id) in t.links
  {
    TagGroupOf(t, k, q);
    GroupPromptsStored(t, k);
    DedupMembers(RowPrompts(Filter(TagRows(t), UnderTag(k))), t.prompts, q);
    NamedGroupRows(t, k, q);
    RowsOfNamed(t, q, k);
  }

  /** A name that is neither empty nor the untagged key is the key of the
      rows carrying that name and of no other. */
  lemma NamedGroupRows(t: Tables, k: string, q: Prompt)
    requires k != "" && k != Untagged
    ensures q in RowPrompts(Filter(TagRows(t), UnderTag(k))) <==> q in t.prompts && TagRow(q, Some(k)) in RowsOf(t, q)
  {
    GroupRowsMembers(t, k, q);
    JoinRowsMembers(t, t.prompts, TagRow(q, Some(k)));
    forall r | r in JoinRows(t, t.prompts) && TagKey(r) == k && r.prompt == q
      ensures r == TagRow(q, Some(k))
    {
    }
  }

  /** With the foreign keys in place, a prompt has a joined row with a NULL
      name exactly when it has no link. */
  lemma NullRowUnlinked(t: Tables, p: Prompt)
    requires Valid(t)
    ensures TagRow(p, None) in RowsOf(t, p) <==> forall l :: l in t.links ==> l.promptId != p.id
  {
    var ls := Filter(t.links, LinkOf(p.id));
    var rs := RowsOf(t, p);
    if forall l :: l in t.links ==> l.promptId != p.id {
      FilterNone(t.links, LinkOf(p.id));
    } else {
      var l :| l in t.links && l.promptId == p.id;
      assert l in ls;
      forall i | 0 <= i < |rs| ensures rs[i].tagName.Some? {
        assert ls[i] in ls;
      }
    }
  }

  /** A prompt has a joined row under the untagged key exactly when it has
      no link, or a link to a tag named "" or 未标记. */
  lemma UntaggedRowsOf(t: Tables, p: Prompt)
    requires Valid(t)
    ensures (exists r :: r in RowsOf(t, p) && TagKey(r) == Untagged) <==>
      || (forall l :: l in t.links ==> l.promptId != p.id)
      || exists tg :: tg in t.tags && (tg.name == "" || tg.name == Untagged) && PromptTag(p.id, tg.id) in t.links
  {
    NullRowUnlinked(t, p);
    RowsOfNamed(t, p, "");
    RowsOfNamed(t, p, Untagged);
    forall r | r in RowsOf(t, p) && TagKey(r) == Untagged
      ensures r == TagRow(p, None) || r == TagRow(p, Some("")) || r == TagRow(p, Some(Untagged))
    {
    }
  }

  /** Under the untagged key are exactly the stored prompts with no link,
      or with a link to a tag named "" or 未标记. */
  lemma UntaggedGroupMembers(t: Tables, q: Prompt)
    requires Valid(t)
    ensures (Untagged in TagGroups(TagRows(t)) && q in TagGroups(TagRows(t))[Untagged]) <==>
      && q in t.prompts
      && (|| (forall l :: l in t.links ==> l.promptId != q.id)
          || exists tg :: tg in t.tags && (tg.name == "" || tg.name == Untagged) && PromptTag(q.id, tg.id) in t.links)
  {
    TagGroupOf(t, Untagged, q);
    GroupPromptsStored(t, Untagged);
    DedupMembers(RowPrompts(Filter(TagRows(t), UnderTag(Untagged))), t.prompts, q);
    GroupRowsMembers(t, Untagged, q);
    UntaggedRowsOf(t, q);
    forall r | r in JoinRows(t, t.prompts) && r.prompt == q ensures q in t.prompts && r in RowsOf(t, q) {
      JoinRowsMembers(t, t.prompts, r);
    }
    forall r | q in t.prompts && r in RowsOf(t, q) && r.prompt == q ensures r in JoinRows(t, t.prompts) {
      JoinRowsMembers(t, t.prompts, r);
    }
  }
}
