/** Packing ranked retrievals into a token budget (plugins/memory/context_builder.py). */
module ContextBuilder {
  import opened Sequences
  import opened Retrievals
  import G = GovernanceValidator
  import S = StableSort
  import Text

  /** A block without the governance annotation. */
  datatype Block = Block(
    chunkId: Option<string>,
    content: string,
    provider: Option<string>,
    score: Option<real>,
    similarity: Option<real>,
    trust: Option<real>,
    sourcePath: Option<string>,
    createdAt: Option<string>,
    meta: map<string, string>,
    tokens: nat)

  /** The annotations are None when no governance report with annotations was given; otherwise there is
      one entry for each block, None where no annotation has the chunk id of the block. */
  datatype Context = Context(
    blocks: seq<Block>,
    totalTokens: nat,
    tokenBudget: int,
    truncated: bool,
    summary: Option<map<G.SummaryKey, nat>>,
    annotations: Option<seq<Option<G.Annotation>>>)

  function EstimateTokens(text: string): nat
  {
    if text == "" then 0 else if Text.Split(text, Text.IsSpace) == [] then 1 else |Text.Split(text, Text.IsSpace)|
  }

  /* ----- what an estimate counts ----- */

  predicate HasWord(text: string)
  {
    exists c :: c in text && !Text.IsSpace(c)
  }

  /** Words joined by white space are counted one by one. */
  lemma EstimateCountsWords(glue: char, words: seq<string>)
    requires Text.IsSpace(glue) && words != [] && forall w :: w in words ==> Text.IsToken(w, Text.IsSpace)
    ensures EstimateTokens(Text.Join([glue], words)) == |words|
  {
    Text.SplitOfJoin(glue, words, Text.IsSpace);
    assert Text.Split("", Text.IsSpace) == [];
  }

  /** Only the empty text costs nothing; text of white space alone costs one. */
  lemma EstimateAtLeastOne(text: string)
    ensures EstimateTokens(text) == 0 <==> text == ""
    ensures text != "" && !HasWord(text) ==> EstimateTokens(text) == 1
  {
    Text.SplitOfSeparators(text, Text.IsSpace);
  }

  /** White space around a text changes nothing. */
  lemma EstimateIgnoresPadding(left: string, text: string, right: string)
    requires text != "" && !HasWord(left) && !HasWord(right)
    ensures EstimateTokens(left + text + right) == EstimateTokens(text)
  {
    Text.SplitPadded(left, text, right, Text.IsSpace);
  }

  /** Putting white space between two texts adds their estimates. */
  lemma EstimateAdds(a: string, glue: char, b: string)
    requires Text.IsSpace(glue) && HasWord(a) && HasWord(b)
    ensures HasWord(a + [glue] + b)
    ensures EstimateTokens(a + [glue] + b) == EstimateTokens(a) + EstimateTokens(b)
  {
    var c :| c in a && !Text.IsSpace(c);
    assert c in a + [glue] + b;
    Text.SplitAcross(a, glue, b, Text.IsSpace);
    Text.SplitOfSeparators(a, Text.IsSpace);
    Text.SplitOfSeparators(b, Text.IsSpace);
  }

  /* ----- ranking ----- */

  predicate HasContent(r: Retrieval)
  {
    TextOr(r.content, "") != ""
  }

  datatype Rank = Rank(score: real, trust: real, similarity: real)

  function RankOf(r: Retrieval): Rank
  {
    Rank(RealOr(r.score, 0.0), RealOr(r.trust, 0.0), RealOr(r.similarity, 0.0))
  }

  /** Order of the tuples `(-score, -trust_score, -similarity)`. */
  predicate RankLe(a: Rank, b: Rank)
  {
    if a.score != b.score then a.score > b.score
    else if a.trust != b.trust then a.trust > b.trust
    else a.similarity >= b.similarity
  }

  lemma RankOrder()
    ensures S.TotalPreorder(RankLe)
  {
  }

  function Ranked(rs: seq<Retrieval>): seq<Retrieval>
  {
    S.Sort(Filter(rs, HasContent), RankOf, RankLe)
  }

  /* ----- deduplication ----- */

  function Keys(rs: seq<Retrieval>): set<Option<string>>
  {
    set r | r in rs :: ChunkKey(r)
  }

  /** Keeps the first retrieval of each chunk key. */
  function Dedup(rs: seq<Retrieval>): seq<Retrieval>
  {
    if rs == [] then []
    else
      var before, last := Dedup(rs[..|rs| - 1]), rs[|rs| - 1];
      if ChunkKey(last) in Keys(before) then before else before + [last]
  }

  function WithKey(k: Option<string>): Retrieval -> bool
  {
    (r: Retrieval) => ChunkKey(r) == k
  }

  /** For every chunk key, deduplication keeps exactly the first retrieval that has it. */
  lemma {:induction false} DedupKeepsFirst(rs: seq<Retrieval>, k: Option<string>)
    ensures Filter(Dedup(rs), WithKey(k)) == if Filter(rs, WithKey(k)) == [] then [] else [Filter(rs, WithKey(k))[0]]
  {
    if rs != [] {
      var init, last := rs[..|rs| - 1], rs[|rs| - 1];
      DedupKeepsFirst(init, k);
      assert rs == init + [last];
      FilterLast(init, last, WithKey(k));
      FilterLast(Dedup(init), last, WithKey(k));
      if ChunkKey(last) == k {
        KeyPresent(Dedup(init), k);
      }
    }
  }

  lemma KeyPresent(rs: seq<Retrieval>, k: Option<string>)
    ensures k in Keys(rs) <==> Filter(rs, WithKey(k)) != []
  {
    if k in Keys(rs) {
      var r :| r in rs && ChunkKey(r) == k;
      FilterMember(rs, WithKey(k), r);
    }
    if Filter(rs, WithKey(k)) != [] {
      FilterMember(rs, WithKey(k), Filter(rs, WithKey(k))[0]);
    }
  }

  predicate DistinctKeys(rs: seq<Retrieval>)
  {
    forall i, j :: 0 <= i < j < |rs| ==> ChunkKey(rs[i]) != ChunkKey(rs[j])
  }

  lemma {:induction false} DedupDistinct(rs: seq<Retrieval>)
    ensures DistinctKeys(Dedup(rs))
    ensures forall r :: r in Dedup(rs) ==> r in rs
  {
    if rs != [] {
      DedupDistinct(rs[..|rs| - 1]);
    }
  }

  lemma {:induction false} DedupOfDistinct(rs: seq<Retrieval>)
    requires DistinctKeys(rs)
    ensures Dedup(rs) == rs
  {
    if rs != [] {
      DedupOfDistinct(rs[..|rs| - 1]);
      assert rs == rs[..|rs| - 1] + [rs[|rs| - 1]];
    }
  }

  lemma {:induction false} DedupSorted(rs: seq<Retrieval>)
    requires S.Sorted(rs, RankOf, RankLe)
    ensures S.Sorted(Dedup(rs), RankOf, RankLe)
  {
    if rs != [] {
      var init, last := rs[..|rs| - 1], rs[|rs| - 1];
      DedupSorted(init);
      DedupDistinct(init);
      forall r | r in Dedup(init) ensures RankLe(RankOf(r), RankOf(last)) {
        var i :| 0 <= i < |init| && init[i] == r;
        assert rs[i] == r;
      }
    }
  }

  /* ----- packing ----- */

  function TokensOf(r: Retrieval): nat
  {
    EstimateTokens(TextOr(r.content, ""))
  }

  function Cost(rs: seq<Retrieval>): nat
  {
    if rs == [] then 0 else TokensOf(rs[0]) + Cost(rs[1..])
  }

  /** How many retrievals the packing loop takes before the first that does not fit. */
  function Pack(rs: seq<Retrieval>, budget: int): (n: nat)
    ensures n <= |rs|
  {
    if rs == [] || TokensOf(rs[0]) > budget then 0 else 1 + Pack(rs[1..], budget - TokensOf(rs[0]))
  }

  lemma {:induction false} CostLast(rs: seq<Retrieval>, r: Retrieval)
    ensures Cost(rs + [r]) == Cost(rs) + TokensOf(r)
  {
    if rs == [] {
      assert [r][1..] == [];
      assert rs + [r] == [r];
    } else {
      CostLast(rs[1..], r);
      assert (rs + [r])[1..] == rs[1..] + [r];
    }
  }

  /** The packed part is the longest prefix whose estimates fit the budget. */
  lemma {:induction false} PackIsLongestFit(rs: seq<Retrieval>, budget: int)
    ensures 0 <= budget ==> Cost(rs[..Pack(rs, budget)]) <= budget
    ensures forall m :: Pack(rs, budget) < m <= |rs| ==> Cost(rs[..m]) > budget
  {
    var n := Pack(rs, budget);
    if rs != [] {
      var first, rest := rs[0], rs[1..];
      if TokensOf(first) <= budget {
        PackIsLongestFit(rest, budget - TokensOf(first));
        assert rs[..n] == [first] + rest[..n - 1];
      }
      forall m | n < m <= |rs| ensures Cost(rs[..m]) > budget {
        assert rs[..m] == [first] + rest[..m - 1];
        assert Cost(rs[..m]) == TokensOf(first) + Cost(rest[..m - 1]);
      }
    }
  }

  /** A larger budget only extends what is packed. */
  lemma PackMonotone(rs: seq<Retrieval>, small: int, large: int)
    requires small <= large
    ensures Pack(rs, small) <= Pack(rs, large)
  {
    PackIsLongestFit(rs, small);
    PackIsLongestFit(rs, large);
  }

  /** A prefix that fits is packed whole. */
  lemma {:induction false} PackAll(rs: seq<Retrieval>, budget: int)
    requires rs == [] || Cost(rs) <= budget
    ensures Pack(rs, budget) == |rs|
  {
    if rs != [] {
      PackAll(rs[1..], budget - TokensOf(rs[0]));
    }
  }

  /* ----- the context ----- */

  function MakeBlock(r: Retrieval): Block
  {
    Block(ChunkKey(r), TextOr(r.content, ""), r.provider, r.score, r.similarity, r.trust, r.sourcePath,
          r.createdAt, r.meta, TokensOf(r))
  }

  /** The retrievals that become blocks. */
  function Chosen(rs: seq<Retrieval>, budget: int): seq<Retrieval>
  {
    Dedup(Ranked(rs))[..Pack(Dedup(Ranked(rs)), budget)]
  }

  function Blocks(rs: seq<Retrieval>, budget: int): seq<Block>
  {
    Map(Chosen(rs, budget), MakeBlock)
  }

  /** The dict comprehension over the annotations: the last one with a chunk id is found. */
  function FindAnnotation(anns: seq<G.Annotation>, k: Option<string>): Option<G.Annotation>
  {
    if anns == [] then None
    else if k == Some(anns[|anns| - 1].chunkId) then Some(anns[|anns| - 1])
    else FindAnnotation(anns[..|anns| - 1], k)
  }

  function AnnotationOfBlock(anns: seq<G.Annotation>): Block -> Option<G.Annotation>
  {
    (b: Block) => FindAnnotation(anns, b.chunkId)
  }

  function ContextFor(rs: seq<Retrieval>, budget: int, governance: Option<G.ReportV2>): Context
  {
    Context(
      Blocks(rs, budget),
      Cost(Chosen(rs, budget)),
      budget,
      |Chosen(rs, budget)| < |Dedup(Ranked(rs))|,
      if governance == None then None else Some(governance.value.summary),
      if governance == None || governance.value.annotations == [] then None
      else Some(Map(Blocks(rs, budget), AnnotationOfBlock(governance.value.annotations))))
  }

  method Deduplicate(candidates: seq<Retrieval>) returns (deduped: seq<Retrieval>)
    ensures deduped == Dedup(candidates)
  {
    deduped := [];
    var seen: set<Option<string>> := {};
    for i := 0 to |candidates|
      invariant deduped == Dedup(candidates[..i])
      invariant seen == Keys(deduped)
    {
      PrefixStep(candidates, i);
      var k := ChunkKey(candidates[i]);
      if k !in seen {
        seen, deduped := seen + {k}, deduped + [candidates[i]];
      }
    }
    assert candidates[..|candidates|] == candidates;
  }

  /** What the packing loop still takes from position `i` on with `left` of the budget. */
  function PackFrom(rs: seq<Retrieval>, i: nat, left: int): nat
    requires i <= |rs|
    decreases |rs| - i
  {
    if i == |rs| || TokensOf(rs[i]) > left then 0 else 1 + PackFrom(rs, i + 1, left - TokensOf(rs[i]))
  }

  lemma {:induction false} PackFromIsPack(rs: seq<Retrieval>, i: nat, left: int)
    requires i <= |rs|
    ensures PackFrom(rs, i, left) == Pack(rs[i..], left)
    decreases |rs| - i
  {
    if i < |rs| {
      PackFromIsPack(rs, i + 1, left - TokensOf(rs[i]));
      assert rs[i..][1..] == rs[i + 1..];
    }
  }

  lemma PackFromStart(rs: seq<Retrieval>, budget: int)
    ensures PackFrom(rs, 0, budget) == Pack(rs, budget)
  {
    PackFromIsPack(rs, 0, budget);
    assert rs[0..] == rs;
  }

  /** The state of the packing loop before position `i`. */
  predicate Packing(rs: seq<Retrieval>, budget: int, i: nat, blocks: seq<Block>, total: nat)
  {
    && i <= |rs|
    && blocks == Map(rs[..i], MakeBlock)
    && total == Cost(rs[..i])
    && Pack(rs, budget) == i + PackFrom(rs, i, budget - total)
  }

  lemma PackingStarts(rs: seq<Retrieval>, budget: int)
    ensures Packing(rs, budget, 0, [], 0)
  {
    PackFromStart(rs, budget);
  }

  lemma PackingGoesOn(rs: seq<Retrieval>, budget: int, i: nat, blocks: seq<Block>, total: nat)
    requires i < |rs| && Packing(rs, budget, i, blocks, total) && total + TokensOf(rs[i]) <= budget
    ensures Packing(rs, budget, i + 1, blocks + [MakeBlock(rs[i])], total + TokensOf(rs[i]))
  {
    PrefixStep(rs, i);
    CostLast(rs[..i], rs[i]);
    MapLast(rs[..i], rs[i], MakeBlock);
  }

  /** The loop ends where the list ends or the next retrieval does not fit. */
  lemma PackingEnds(rs: seq<Retrieval>, budget: int, i: nat, blocks: seq<Block>, total: nat)
    requires Packing(rs, budget, i, blocks, total)
    requires i == |rs| || total + TokensOf(rs[i]) > budget
    ensures Pack(rs, budget) == i && blocks == Map(rs[..i], MakeBlock) && total == Cost(rs[..i])
  {
  }

  method PackBlocks(deduped: seq<Retrieval>, budget: int) returns (blocks: seq<Block>, total: nat, truncated: bool)
    ensures blocks == Map(deduped[..Pack(deduped, budget)], MakeBlock)
    ensures total == Cost(deduped[..Pack(deduped, budget)])
    ensures truncated <==> Pack(deduped, budget) < |deduped|
  {
    blocks, total, truncated := [], 0, false;
    PackingStarts(deduped, budget);
    var i := 0;
    while i < |deduped|
      invariant 0 <= i <= |deduped| && Packing(deduped, budget, i, blocks, total)
    {
      var est := TokensOf(deduped[i]);
      if total + est > budget {
        truncated := true;
        break;
      }
      PackingGoesOn(deduped, budget, i, blocks, total);
      blocks, total, i := blocks + [MakeBlock(deduped[i])], total + est, i + 1;
    }
    PackingEnds(deduped, budget, i, blocks, total);
  }

  /** `build_context`. */
  method BuildContext(retrievals: seq<Retrieval>, budget: int, governance: Option<G.ReportV2>) returns (ctx: Context)
    ensures ctx == ContextFor(retrievals, budget, governance)
  {
    var candidates := Filter(retrievals, HasContent);
    candidates := S.Sort(candidates, RankOf, RankLe);
    var deduped := Deduplicate(candidates);
    var blocks, total, truncated := PackBlocks(deduped, budget);
    ctx := Context(blocks, total, budget, truncated, None, None);
    if governance != None {
      ctx := ctx.(summary := Some(governance.value.summary));
      if governance.value.annotations != [] {
        ctx := ctx.(annotations := Some(Map(blocks, AnnotationOfBlock(governance.value.annotations))));
      }
    }
  }

  /* ----- what a context guarantees ----- */

  /** The tokens of the blocks are the total, which keeps to a budget that is not negative; something was
      left out exactly when `truncated` says so, and then the next retrieval would not have fitted. */
  lemma ContextFits(rs: seq<Retrieval>, budget: int, governance: Option<G.ReportV2>)
    ensures var ctx := ContextFor(rs, budget, governance); var all := Dedup(Ranked(rs));
      && ctx.totalTokens == Cost(Chosen(rs, budget))
      && (ctx.totalTokens <= budget <==> 0 <= budget)
      && Chosen(rs, budget) == all[..|ctx.blocks|]
      && (ctx.truncated <==> |ctx.blocks| < |all|)
      && forall m :: |ctx.blocks| < m <= |all| ==> Cost(all[..m]) > budget
  {
    PackIsLongestFit(Dedup(Ranked(rs)), budget);
  }

  lemma LargerBudgetExtends(rs: seq<Retrieval>, small: int, large: int)
    requires small <= large
    ensures Blocks(rs, small) <= Blocks(rs, large)
  {
    PackMonotone(Dedup(Ranked(rs)), small, large);
    assert forall i :: 0 <= i < |Chosen(rs, small)| ==> Chosen(rs, small)[i] == Chosen(rs, large)[i];
  }

  /** A chosen retrieval ranks best among those with content and the same chunk key, and among equals it
      came first; every key that occurs is kept once. */
  lemma BestOfItsChunk(rs: seq<Retrieval>, k: Option<string>)
    ensures var same := S.Sort(Filter(Filter(rs, HasContent), WithKey(k)), RankOf, RankLe);
      Filter(Dedup(Ranked(rs)), WithKey(k)) == if same == [] then [] else [same[0]]
  {
    RankOrder();
    S.SortFilter(Filter(rs, HasContent), WithKey(k), RankOf, RankLe);
    DedupKeepsFirst(Ranked(rs), k);
  }

  /* ----- rebuilding from the blocks ----- */

  /** A block read back as a retrieval: it has a chunk id but no id. */
  function AsRetrieval(b: Block): Retrieval
  {
    Retrieval(None, b.chunkId, Some(b.content), b.score, b.trust, b.similarity, b.provider, b.sourcePath,
              b.createdAt, None, b.meta)
  }

  predicate NamedByEmptyText(b: Block)
  {
    b.chunkId == Some("")
  }

  lemma ChosenShape(rs: seq<Retrieval>, budget: int)
    ensures var chosen := Chosen(rs, budget);
      && S.Sorted(chosen, RankOf, RankLe)
      && DistinctKeys(chosen)
      && (forall r :: r in chosen ==> HasContent(r))
      && (chosen == [] || Cost(chosen) <= budget)
  {
    var all := Dedup(Ranked(rs));
    RankOrder();
    S.SortSorted(Filter(rs, HasContent), RankOf, RankLe);
    DedupSorted(Ranked(rs));
    DedupDistinct(Ranked(rs));
    PackIsLongestFit(all, budget);
    forall r | r in Chosen(rs, budget) ensures HasContent(r) {
      assert r in all;
      S.SortMember(Filter(rs, HasContent), RankOf, RankLe, r);
      FilterMember(rs, HasContent, r);
    }
  }

  lemma {:induction false} CostOfCopies(rs: seq<Retrieval>, copies: seq<Retrieval>)
    requires |rs| == |copies| && forall i :: 0 <= i < |rs| ==> TokensOf(copies[i]) == TokensOf(rs[i])
    ensures Cost(copies) == Cost(rs)
  {
    if rs != [] {
      CostOfCopies(rs[1..], copies[1..]);
    }
  }

  /** Building again from the returned blocks under the same budget gives the same blocks and drops
      nothing, exactly when no block is named by the empty text: such a name is read back as none. */
  lemma RebuildFromBlocks(rs: seq<Retrieval>, budget: int)
    ensures var blocks := Blocks(rs, budget); var again := ContextFor(Map(blocks, AsRetrieval), budget, None);
      (again.blocks == blocks && !again.truncated) <==> forall b :: b in blocks ==> !NamedByEmptyText(b)
  {
    var chosen, blocks := Chosen(rs, budget), Blocks(rs, budget);
    var copies := Map(blocks, AsRetrieval);
    if forall b :: b in blocks ==> !NamedByEmptyText(b) {
      RebuildSame(rs, budget);
    } else {
      var b :| b in blocks && NamedByEmptyText(b);
      RebuiltNamesAreNotEmptyText(copies, budget);
      assert b !in Blocks(copies, budget);
    }
  }

  /** A sorted sequence with content, distinct keys and a cost within the budget is chosen whole. */
  lemma ChosenWhole(rs: seq<Retrieval>, budget: int)
    requires S.Sorted(rs, RankOf, RankLe) && DistinctKeys(rs) && (forall r :: r in rs ==> HasContent(r))
    requires rs == [] || Cost(rs) <= budget
    ensures Chosen(rs, budget) == rs == Dedup(Ranked(rs))
  {
    FilterAll(rs, HasContent);
    RankOrder();
    S.SortFixed(rs, RankOf, RankLe);
    DedupOfDistinct(rs);
    PackAll(rs, budget);
  }

  lemma CopyKeepsRank(r: Retrieval)
    requires HasContent(r) && ChunkKey(r) != Some("")
    ensures var copy := AsRetrieval(MakeBlock(r));
      ChunkKey(copy) == ChunkKey(r) && RankOf(copy) == RankOf(r) && MakeBlock(copy) == MakeBlock(r) && HasContent(copy)
  {
  }

  lemma RebuildSame(rs: seq<Retrieval>, budget: int)
    requires forall b :: b in Blocks(rs, budget) ==> !NamedByEmptyText(b)
    ensures var again := ContextFor(Map(Blocks(rs, budget), AsRetrieval), budget, None);
      again.blocks == Blocks(rs, budget) && !again.truncated
  {
    var chosen, blocks := Chosen(rs, budget), Blocks(rs, budget);
    var copies := Map(blocks, AsRetrieval);
    ChosenShape(rs, budget);
    forall i | 0 <= i < |chosen|
      ensures ChunkKey(copies[i]) == ChunkKey(chosen[i]) && RankOf(copies[i]) == RankOf(chosen[i])
      ensures MakeBlock(copies[i]) == blocks[i] && HasContent(copies[i]) && TokensOf(copies[i]) == TokensOf(chosen[i])
    {
      assert blocks[i] in blocks && chosen[i] in chosen;
      CopyKeepsRank(chosen[i]);
    }
    CostOfCopies(chosen, copies);
    ChosenWhole(copies, budget);
    assert Map(copies, MakeBlock) == blocks;
  }

  lemma RebuiltNamesAreNotEmptyText(copies: seq<Retrieval>, budget: int)
    requires forall r :: r in copies ==> r.id == None
    ensures forall b :: b in Blocks(copies, budget) ==> !NamedByEmptyText(b)
  {
    var chosen := Chosen(copies, budget);
    DedupDistinct(Ranked(copies));
    RankOrder();
    forall b | b in Blocks(copies, budget) ensures !NamedByEmptyText(b) {
      var i :| 0 <= i < |chosen| && Blocks(copies, budget)[i] == b;
      assert chosen[i] in Dedup(Ranked(copies));
      S.SortMember(Filter(copies, HasContent), RankOf, RankLe, chosen[i]);
      FilterMember(copies, HasContent, chosen[i]);
    }
  }

  /** For instance a lone retrieval with an empty id: its block comes back without a name. */
  lemma EmptyIdIsLost(content: string, budget: int)
    requires content != "" && EstimateTokens(content) <= budget
    ensures var r := Retrieval(Some(""), None, Some(content), None, None, None, None, None, None, None, map[]);
      var blocks := Blocks([r], budget); var again := ContextFor(Map(blocks, AsRetrieval), budget, None);
      |blocks| == 1 && blocks[0].chunkId == Some("") && again.blocks != blocks
  {
    var r := Retrieval(Some(""), None, Some(content), None, None, None, None, None, None, None, map[]);
    assert Cost([r]) == TokensOf(r) + Cost([r][1..]);
    ChosenWhole([r], budget);
    assert Blocks([r], budget) == [MakeBlock(r)];
    assert NamedByEmptyText(MakeBlock(r)) && MakeBlock(r) in Blocks([r], budget);
    RebuiltNamesAreNotEmptyText(Map(Blocks([r], budget), AsRetrieval), budget);
  }

  /* ----- a context in terms of the retrievals ----- */

  function Contents(blocks: seq<Block>): seq<string>
  {
    if blocks == [] then [] else [blocks[0].content] + Contents(blocks[1..])
  }

  lemma {:induction false} CostOfJoined(rs: seq<Retrieval>)
    requires rs != [] && forall r :: r in rs ==> r.content != None && HasWord(r.content.value)
    ensures HasWord(Text.Join(" ", Contents(Map(rs, MakeBlock))))
    ensures Cost(rs) == EstimateTokens(Text.Join(" ", Contents(Map(rs, MakeBlock))))
  {
    var contents := Contents(Map(rs, MakeBlock));
    assert rs[0] in rs && contents[0] == rs[0].content.value;
    assert Map(rs, MakeBlock)[1..] == Map(rs[1..], MakeBlock);
    if |rs| == 1 {
      assert rs[1..] == [];
      assert contents == [rs[0].content.value];
    } else {
      CostOfJoined(rs[1..]);
      assert contents[1..] == Contents(Map(rs[1..], MakeBlock));
      assert [' '] == " ";
      EstimateAdds(contents[0], ' ', Text.Join(" ", contents[1..]));
    }
  }

  /** The total is the estimate of all the blocks' contents put together, if each holds a word. */
  lemma TotalCountsWords(rs: seq<Retrieval>, budget: int, governance: Option<G.ReportV2>)
    requires forall r :: r in rs && r.content != None ==> HasWord(r.content.value)
    ensures var ctx := ContextFor(rs, budget, governance);
      ctx.totalTokens == EstimateTokens(Text.Join(" ", Contents(ctx.blocks)))
  {
    var chosen := Chosen(rs, budget);
    forall r | r in chosen ensures r in rs && r.content != None {
      ChosenFromResults(rs, budget, r);
    }
    if chosen != [] {
      CostOfJoined(chosen);
    }
  }

  lemma ChosenFromResults(rs: seq<Retrieval>, budget: int, r: Retrieval)
    requires r in Chosen(rs, budget)
    ensures r in rs && r.content != None && r.content.value != ""
  {
    DedupDistinct(Ranked(rs));
    RankOrder();
    S.SortMember(Filter(rs, HasContent), RankOf, RankLe, r);
    FilterMember(rs, HasContent, r);
  }

  /** Every block shows the fields of a retrieval that has content, under its chunk id or else its id. */
  lemma BlockByFields(rs: seq<Retrieval>, budget: int, governance: Option<G.ReportV2>, i: nat) returns (r: Retrieval)
    requires i < |ContextFor(rs, budget, governance).blocks|
    ensures r in rs && r.content != None && r.content.value != ""
    ensures var b := ContextFor(rs, budget, governance).blocks[i];
      && b.chunkId == (if r.chunkId != None && r.chunkId.value != "" then r.chunkId else r.id)
      && b.content == r.content.value && b.tokens == EstimateTokens(r.content.value)
      && b.provider == r.provider && b.score == r.score && b.similarity == r.similarity && b.trust == r.trust
      && b.sourcePath == r.sourcePath && b.createdAt == r.createdAt && b.meta == r.meta
  {
    r := Chosen(rs, budget)[i];
    ChosenFromResults(rs, budget, r);
  }

  /** Blocks come in falling order of score, then trust, then similarity, where a missing number is zero. */
  lemma BlocksByRank(rs: seq<Retrieval>, budget: int, i: nat, j: nat)
    requires i < j < |Blocks(rs, budget)|
    ensures var (a, b) := (Blocks(rs, budget)[i], Blocks(rs, budget)[j]);
      var (sa, sb) := (if a.score == None then 0.0 else a.score.value, if b.score == None then 0.0 else b.score.value);
      var (ta, tb) := (if a.trust == None then 0.0 else a.trust.value, if b.trust == None then 0.0 else b.trust.value);
      var ma := if a.similarity == None then 0.0 else a.similarity.value;
      var mb := if b.similarity == None then 0.0 else b.similarity.value;
      sa > sb || (sa == sb && (ta > tb || (ta == tb && ma >= mb)))
  {
    ChosenShape(rs, budget);
    var a, b := Chosen(rs, budget)[i], Chosen(rs, budget)[j];
    assert RankLe(RankOf(a), RankOf(b));
  }

  /** No retrieval of the same chunk has content and a higher rank than the one that became the block. */
  lemma BlockBestOfChunk(rs: seq<Retrieval>, budget: int, i: nat, o: Retrieval)
    requires i < |Blocks(rs, budget)| && o in rs && o.content != None && o.content.value != ""
    requires Blocks(rs, budget)[i].chunkId == if o.chunkId != None && o.chunkId.value != "" then o.chunkId else o.id
    ensures var b := Blocks(rs, budget)[i];
      var (sb, so) := (if b.score == None then 0.0 else b.score.value, if o.score == None then 0.0 else o.score.value);
      var (tb, to) := (if b.trust == None then 0.0 else b.trust.value, if o.trust == None then 0.0 else o.trust.value);
      var mb := if b.similarity == None then 0.0 else b.similarity.value;
      var mo := if o.similarity == None then 0.0 else o.similarity.value;
      sb > so || (sb == so && (tb > to || (tb == to && mb >= mo)))
  {
    var r, k := Chosen(rs, budget)[i], ChunkKey(o);
    var all, same := Dedup(Ranked(rs)), Filter(Filter(rs, HasContent), WithKey(k));
    RankOrder();
    BestOfItsChunk(rs, k);
    FilterMember(all, WithKey(k), r);
    FilterMember(rs, HasContent, o);
    FilterMember(Filter(rs, HasContent), WithKey(k), o);
    S.SortMember(same, RankOf, RankLe, o);
    S.SortSorted(same, RankOf, RankLe);
    S.HeadIsLeast(S.Sort(same, RankOf, RankLe), o, RankOf, RankLe);
    assert RankLe(RankOf(r), RankOf(o));
  }

  /** Under a budget that holds everything, no retrieval with content is missing: a block has its chunk key. */
  lemma NothingMissing(rs: seq<Retrieval>, budget: int, r: Retrieval)
    requires r in rs && r.content != None && r.content.value != ""
    requires !ContextFor(rs, budget, None).truncated
    ensures var key := if r.chunkId != None && r.chunkId.value != "" then r.chunkId else r.id;
      exists b :: b in Blocks(rs, budget) && b.chunkId == key
  {
    var all := Dedup(Ranked(rs));
    RankOrder();
    FilterMember(rs, HasContent, r);
    S.SortMember(Filter(rs, HasContent), RankOf, RankLe, r);
    DedupKeepsFirst(Ranked(rs), ChunkKey(r));
    FilterMember(Ranked(rs), WithKey(ChunkKey(r)), r);
    var kept := Filter(all, WithKey(ChunkKey(r)));
    assert kept != [];
    FilterMember(all, WithKey(ChunkKey(r)), kept[0]);
    assert Chosen(rs, budget) == all;
    var k :| 0 <= k < |all| && all[k] == kept[0];
    assert Blocks(rs, budget)[k] == MakeBlock(kept[0]);
  }

  /** The context names its budget and carries the summary of the report it was given. */
  lemma ContextCarries(rs: seq<Retrieval>, budget: int, governance: Option<G.ReportV2>)
    ensures var ctx := ContextFor(rs, budget, governance);
      && ctx.tokenBudget == budget
      && (governance == None ==> ctx.summary == None && ctx.annotations == None)
      && (governance != None ==> ctx.summary == Some(governance.value.summary))
      && (ctx.annotations != None ==> |ctx.annotations.value| == |ctx.blocks|)
  {
  }
}
