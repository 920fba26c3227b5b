/** The two halves of the clustering exchange: each prompt flattened to one
    text for the external clustering service, and the assignments it sends
    back. */
module Clustering {
  import opened Types
  import opened Sql
  import opened Schema
  import opened Queries
  import opened Transactions
  import opened Integrity
  import opened Guarantees

  /** The separator between block contents: a blank line. */
  const Separator: string := "\n\n"

  /** Total length of a list of strings. */
  function TotalLength(xs: seq<string>): nat {
    if xs == [] then 0 else TotalLength(xs[..|xs| - 1]) + |xs[|xs| - 1]|
  }

  /** `xs.join(sep)`: the strings with `sep` between neighbours. */
  function Join(xs: seq<string>, sep: string): (r: string)
    ensures |r| == TotalLength(xs) + (if xs == [] then 0 else (|xs| - 1) * |sep|)
    ensures xs != [] ==> xs[0] <= r && xs[|xs| - 1] <= r[|r| - |xs[|xs| - 1]|..]
  {
    if xs == [] then ""
    else if |xs| == 1 then xs[0]
    else
      var init := Join(xs[..|xs| - 1], sep);
      assert xs[..|xs| - 1][0] == xs[0];
      init + sep + xs[|xs| - 1]
  }

  function Contents(bs: seq<Block>): seq<string> {
    seq(|bs|, i requires 0 <= i < |bs| => bs[i].content)
  }

  /** One prompt as the clustering service sees it. */
  function Item(t: Tables, p: Prompt): ClusteringItem {
    ClusteringItem(p.id, p.title, Join(Contents(BlocksOf(t, p.id)), Separator))
  }

  /** One item per prompt, in listing order; the text of each is the
      contents of the prompt's blocks, as getPromptById orders them, joined
      by blank lines. */
  function GetPromptsForClustering(t: Tables): (r: seq<ClusteringItem>)
    ensures |r| == |GetAllPrompts(t)|
    ensures forall i :: 0 <= i < |r| ==>
      && r[i].id == GetAllPrompts(t)[i].id
      && r[i].title == GetAllPrompts(t)[i].title
      && GetPromptById(t, r[i].id).Some?
      && r[i].content == Join(Contents(GetPromptById(t, r[i].id).value.blocks), Separator)
  {
    var ps := GetAllPrompts(t);
    SortByMembers(t.prompts, NewerFirst);
    assert forall i :: 0 <= i < |ps| ==> PromptKey(ps[i]) in PromptIds(t.prompts);
    seq(|ps|, i requires 0 <= i < |ps| => Item(t, ps[i]))
  }

  /** The contents of the blocks a caller submits, in submission order. */
  function SubmittedContents(bs: seq<BlockInput>): seq<string> {
    seq(|bs|, k requires 0 <= k < |bs| => bs[k].content)
  }

  /** A freshly created prompt is sent for clustering with its title and
      the contents of the submitted blocks, in submission order. */
  lemma ClusteringAfterCreate(t: Tables, req: CreateRequest, id: string, blockIds: seq<string>, now: int)
    requires Valid(t) && |blockIds| == |req.blocks|
    requires CreateCommits(t, req, id, blockIds)
    ensures
      var r := GetPromptsForClustering(AfterCreate(t, req, id, blockIds, now));
      var item := ClusteringItem(id, req.title, Join(SubmittedContents(req.blocks), Separator));
      exists i :: 0 <= i < |r| && r[i] == item
  {
    var u := AfterCreate(t, req, id, blockIds, now);
    var row := NewPromptRow(id, req, now);
    CreatedRow(t, req, id, blockIds, now);
    assert Contents(BlocksOf(u, id)) == SubmittedContents(req.blocks) by {
      CreatedBlocks(t, req, id, blockIds, now);
    }
    var ps := GetAllPrompts(u);
    assert row in ps by {
      SortByMembers(u.prompts, NewerFirst);
    }
    var i :| 0 <= i < |ps| && ps[i] == row;
    assert GetPromptsForClustering(u)[i].id == id;
  }

  // ---------------------------------------------------------------------
  // updateClusters

  /** The last assignment naming `id` is the one that sticks. */
  lemma LastUpdateWins(us: seq<ClusterUpdate>, id: string)
    ensures LastUpdateFor(us, id).Some? <==> exists u :: u in us && u.id == id
    ensures LastUpdateFor(us, id).Some? ==>
      exists k :: 0 <= k < |us| && us[k] == LastUpdateFor(us, id).value && us[k].id == id &&
        forall j :: k < j < |us| ==> us[j].id != id
  {
    if us != [] {
      var init := us[..|us| - 1];
      assert us == init + [us[|us| - 1]];
      LastUpdateWins(init, id);
    }
  }

  /** Assignments naming no stored prompt change nothing. */
  lemma UnknownIdsChangeNothing(ps: seq<Prompt>, us: seq<ClusterUpdate>, now: int)
    requires forall u :: u in us ==> u.id !in PromptIds(ps)
    ensures AfterClusterUpdates(ps, us, now) == ps
  {
    forall i | 0 <= i < |ps| ensures LastUpdateFor(us, ps[i].id).None? {
      assert PromptKey(ps[i]) in PromptIds(ps);
      LastUpdateWins(us, ps[i].id);
    }
  }

  /** After updateClusters a prompt named by an assignment carries the
      group and keywords (a missing or empty keyword string as NULL) of the
      last assignment naming it, and the update time; its title,
      description, creation time, blocks and tags are unchanged. A prompt
      no assignment names is unchanged. */
  lemma ClusterUpdatesEffect(t: Tables, us: seq<ClusterUpdate>, now: int, id: string)
    requires Valid(t)
    ensures
      var t' := t.(prompts := AfterClusterUpdates(t.prompts, us, now));
      && (GetPromptById(t', id).Some? <==> GetPromptById(t, id).Some?)
      && ((forall u :: u in us ==> u.id != id) ==> GetPromptById(t', id) == GetPromptById(t, id))
      && (GetPromptById(t, id).Some? ==>
            var before := GetPromptById(t, id).value;
            var after := GetPromptById(t', id).value;
            && after.blocks == before.blocks && after.tags == before.tags
            && after.prompt.id == id && after.prompt.title == before.prompt.title
            && after.prompt.description == before.prompt.description
            && after.prompt.createdAt == before.prompt.createdAt
            && (LastUpdateFor(us, id).Some? ==>
                  && after.prompt.clusterGroup == Some(LastUpdateFor(us, id).value.clusterGroup)
                  && after.prompt.clusterKeywords == OrNull(LastUpdateFor(us, id).value.clusterKeywords)
                  && after.prompt.updatedAt == now))
  {
    var ps' := AfterClusterUpdates(t.prompts, us, now);
    LastUpdateWins(us, id);
    if id in PromptIds(t.prompts) {
      var p := FindPrompt(t.prompts, id).value;
      var i :| 0 <= i < |t.prompts| && t.prompts[i] == p;
      assert FindPrompt(ps', id) == Some(ps'[i]) by {
        ClusterUpdatesKeepValid(t, us, now);
        FindPromptUnique(ps', ps'[i]);
      }
    } else {
      assert FindPrompt(ps', id).None? by {
        SameKeys(t.prompts, ps', PromptKey);
      }
    }
  }
}
