/**
 * pdfreader.py `semantic_chunk_blocks` and `chunk_multiple_pdfs`: adjacent blocks are merged
 * greedily into chunks under a token ceiling and a similarity-drop rule, and every chunk of a
 * document is stamped with the document's path. The embedding service and the similarity
 * measure are function parameters.
 */
module Grouping {
  import opened Wrappers
  import opened Seqs
  import opened Text
  import opened Records
  import opened Utils
  import opened Chunker
  import opened Segmenter

  /** The dimension of the index's vectors (`dimension=1024` in pinecone_client.py). */
  const EmbeddingDim: nat := 1024

  /** A block with its embedding: one pair of `zip(blocks, embeddings)`. */
  datatype Member = Member(block: Block, emb: Vector)

  /** The thresholds of `semantic_chunk_blocks`. */
  datatype Params = Params(maxTokens: int, minTokens: int, simThreshold: real)

  /** `zip(blocks, embs)`: pairs up to the shorter of the two. */
  function Zip(blocks: seq<Block>, embs: seq<Vector>): (r: seq<Member>)
    ensures |r| == Min(|blocks|, |embs|)
    ensures forall k :: 0 <= k < |r| ==> r[k] == Member(blocks[k], embs[k])
  {
    seq(Min(|blocks|, |embs|), k requires 0 <= k < Min(|blocks|, |embs|) => Member(blocks[k], embs[k]))
  }

  function MemberBlocks(ms: seq<Member>): (r: seq<Block>)
    ensures |r| == |ms| && forall k :: 0 <= k < |r| ==> r[k] == ms[k].block
  {
    seq(|ms|, k requires 0 <= k < |ms| => ms[k].block)
  }

  function Embs(ms: seq<Member>): (r: seq<Vector>)
    ensures |r| == |ms| && forall k :: 0 <= k < |r| ==> r[k] == ms[k].emb
  {
    seq(|ms|, k requires 0 <= k < |ms| => ms[k].emb)
  }

  /** Every member's embedding has dimension `dim`. */
  predicate MemberDims(ms: seq<Member>, dim: nat) {
    forall k :: 0 <= k < |ms| ==> |ms[k].emb| == dim
  }

  /** `current_tokens`: the summed word counts of a group's blocks. */
  function Tokens(group: seq<Member>): nat {
    TokenSum(MemberBlocks(group))
  }

  /** The componentwise mean of a group's embeddings: what `current_emb` stands for. */
  function Centroid(group: seq<Member>, dim: nat): (c: Vector)
    requires group != [] && MemberDims(group, dim)
    ensures |c| == dim
  {
    Mean(Embs(group), dim)
  }

  /**
   * The test that closes the chunk being built before `next`: the similarity to the group's
   * centroid drops below the threshold while the group has reached `min_tokens`, or `next`
   * would take the group past `max_tokens`.
   */
  predicate Closes(group: seq<Member>, next: Member, p: Params, sim: (Vector, Vector) -> real, dim: nat)
    requires group != [] && MemberDims(group, dim)
  {
    (sim(Centroid(group, dim), next.emb) < p.simThreshold && Tokens(group) >= p.minTokens)
    || Tokens(group) + WordCount(next.block.text) > p.maxTokens
  }

  /** The groups closed so far and the group being built (`current`). */
  datatype State = State(closed: seq<seq<Member>>, current: seq<Member>)

  /** One iteration of the loop: start, close-and-restart, or merge. */
  function Step(s: State, m: Member, p: Params, sim: (Vector, Vector) -> real, dim: nat): State
    requires MemberDims(s.current, dim)
  {
    if s.current == [] then State(s.closed, [m])
    else if Closes(s.current, m, p, sim, dim) then State(s.closed + [s.current], [m])
    else State(s.closed, s.current + [m])
  }

  /** The state after the loop has seen `ms`. */
  function Group(ms: seq<Member>, p: Params, sim: (Vector, Vector) -> real, dim: nat): (s: State)
    requires MemberDims(ms, dim)
    ensures (s.current == []) == (ms == [])
    ensures MemberDims(s.current, dim)
    decreases |ms|
  {
    if ms == [] then State([], [])
    else Step(Group(ms[..|ms| - 1], p, sim, dim), ms[|ms| - 1], p, sim, dim)
  }

  /** The groups `semantic_chunk_blocks` emits: the closed ones, then the last one if any. */
  function AllGroups(ms: seq<Member>, p: Params, sim: (Vector, Vector) -> real, dim: nat): seq<seq<Member>>
    requires MemberDims(ms, dim)
  {
    var s := Group(ms, p, sim, dim);
    s.closed + (if s.current == [] then [] else [s.current])
  }

  /** Every group is non-empty. */
  predicate NonEmptyGroups(gs: seq<seq<Member>>) {
    forall k :: 0 <= k < |gs| ==> gs[k] != []
  }

  /** Each group built into a chunk, numbered in order as `global_chunk_id` counts them. */
  function BuildChunks(gs: seq<seq<Member>>): (r: seq<Chunk>)
    requires NonEmptyGroups(gs)
    ensures |r| == |gs|
    decreases |gs|
  {
    if gs == [] then []
    else BuildChunks(gs[..|gs| - 1]) + [BuildChunk(MemberBlocks(gs[|gs| - 1]), |gs| - 1)]
  }

  /** Chunk `k` is group `k` built with id `k`. */
  lemma {:induction false} BuildChunksAt(gs: seq<seq<Member>>, k: nat)
    requires NonEmptyGroups(gs) && k < |gs|
    ensures BuildChunks(gs)[k] == BuildChunk(MemberBlocks(gs[k]), k)
    ensures BuildChunks(gs)[k].metadata.globalChunkId == k
    decreases |gs|
  {
    if k < |gs| - 1 {
      BuildChunksAt(gs[..|gs| - 1], k);
    }
  }

  /**
   * How one more member changes the emitted groups: the first member starts the only group;
   * a member that meets the closing test starts a new group; any other joins the last group.
   */
  lemma {:induction false} AllGroupsStep(ms: seq<Member>, p: Params, sim: (Vector, Vector) -> real, dim: nat)
    requires ms != [] && MemberDims(ms, dim)
    ensures var init, m := ms[..|ms| - 1], ms[|ms| - 1];
      var s, prev, gs := Group(init, p, sim, dim), AllGroups(init, p, sim, dim), AllGroups(ms, p, sim, dim);
      && (init == [] ==> gs == [[m]])
      && (init != [] ==> prev != [] && prev[|prev| - 1] == s.current && s.current != [])
      && (init != [] && Closes(s.current, m, p, sim, dim) ==> gs == prev + [[m]])
      && (init != [] && !Closes(s.current, m, p, sim, dim) ==> gs == prev[..|prev| - 1] + [s.current + [m]])
      && (init != [] ==> gs == prev + [[m]] || gs == prev[..|prev| - 1] + [prev[|prev| - 1] + [m]])
  {
    var init := ms[..|ms| - 1];
    var s := Group(init, p, sim, dim);
    if init != [] {
      assert AllGroups(init, p, sim, dim)[..|AllGroups(init, p, sim, dim)| - 1] == s.closed;
    }
  }

  lemma {:induction false} FlattenOne<T>(xs: seq<T>)
    ensures Flatten([xs]) == xs
  {
    assert Flatten([xs]) == Flatten([xs][..0]) + xs;
  }

  lemma {:induction false} FlattenSnoc<T>(xss: seq<seq<T>>, xs: seq<T>)
    ensures Flatten(xss + [xs]) == Flatten(xss) + xs
  {
    assert (xss + [xs])[..|xss|] == xss;
  }

  /** Growing the last group by one element grows the concatenation by that element. */
  lemma {:induction false} FlattenSnocLast<T>(xss: seq<seq<T>>, xs: seq<T>, x: T)
    ensures Flatten(xss + [xs + [x]]) == Flatten(xss + [xs]) + [x]
  {
    FlattenSnoc(xss, xs + [x]);
    FlattenSnoc(xss, xs);
  }

  /** Either way the groups grow, they still spell out the input, now one member longer. */
  lemma {:induction false} PartitionStep(prev: seq<seq<Member>>, gs: seq<seq<Member>>, m: Member)
    requires prev != [] && NonEmptyGroups(prev)
    requires gs == prev + [[m]] || gs == prev[..|prev| - 1] + [prev[|prev| - 1] + [m]]
    ensures NonEmptyGroups(gs) && Flatten(gs) == Flatten(prev) + [m]
  {
    var pre, c := prev[..|prev| - 1], prev[|prev| - 1];
    if gs == prev + [[m]] {
      FlattenSnoc(prev, [m]);
    } else {
      assert prev == pre + [c];
      FlattenSnocLast(pre, c, m);
    }
  }

  /**
   * The emitted groups are non-empty and their concatenation is exactly the input: no block
   * is dropped, repeated or moved.
   */
  lemma {:induction false} AllGroupsPartition(ms: seq<Member>, p: Params, sim: (Vector, Vector) -> real, dim: nat)
    requires MemberDims(ms, dim)
    ensures var gs := AllGroups(ms, p, sim, dim);
      NonEmptyGroups(gs) && Flatten(gs) == ms && (gs == [] <==> ms == [])
    decreases |ms|
  {
    if ms != [] {
      var init, m := ms[..|ms| - 1], ms[|ms| - 1];
      AllGroupsStep(ms, p, sim, dim);
      AllGroupsPartition(init, p, sim, dim);
      assert init + [m] == ms;
      if init == [] {
        FlattenOne([m]);
      } else {
        PartitionStep(AllGroups(init, p, sim, dim), AllGroups(ms, p, sim, dim), m);
      }
    }
  }

  // ---------------------------------------------------------------- token ceiling

  lemma {:induction false} TokensSnoc(group: seq<Member>, m: Member)
    ensures Tokens(group + [m]) == Tokens(group) + WordCount(m.block.text)
  {
    var bs := MemberBlocks(group + [m]);
    assert bs[..|bs| - 1] == MemberBlocks(group);
  }

  /** Every group of two or more blocks stays within `max_tokens`. */
  predicate WithinCeiling(gs: seq<seq<Member>>, maxTokens: int) {
    forall k :: 0 <= k < |gs| && |gs[k]| >= 2 ==> Tokens(gs[k]) <= maxTokens
  }

  lemma {:induction false} GroupCeiling(ms: seq<Member>, p: Params, sim: (Vector, Vector) -> real, dim: nat)
    requires MemberDims(ms, dim)
    ensures var s := Group(ms, p, sim, dim);
      WithinCeiling(s.closed, p.maxTokens) && (|s.current| >= 2 ==> Tokens(s.current) <= p.maxTokens)
    decreases |ms|
  {
    if ms != [] {
      var init, m := ms[..|ms| - 1], ms[|ms| - 1];
      var s := Group(init, p, sim, dim);
      GroupCeiling(init, p, sim, dim);
      if s.current != [] && !Closes(s.current, m, p, sim, dim) {
        TokensSnoc(s.current, m);
      }
    }
  }

  /**
   * Any emitted chunk of two or more blocks has at most `max_tokens` words; a single block
   * may exceed it on its own.
   */
  lemma {:induction false} AllGroupsCeiling(ms: seq<Member>, p: Params, sim: (Vector, Vector) -> real, dim: nat)
    requires MemberDims(ms, dim)
    ensures WithinCeiling(AllGroups(ms, p, sim, dim), p.maxTokens)
  {
    GroupCeiling(ms, p, sim, dim);
  }

  // ---------------------------------------------------------------- closing rule

  /** Every group is non-empty and has the embedding dimension. */
  predicate GroupsWF(gs: seq<seq<Member>>, dim: nat) {
    forall k :: 0 <= k < |gs| ==> gs[k] != [] && MemberDims(gs[k], dim)
  }

  /** Each group met the closing test against the first member of the group after it. */
  predicate Chained(gs: seq<seq<Member>>, p: Params, sim: (Vector, Vector) -> real, dim: nat)
    requires GroupsWF(gs, dim)
  {
    forall k :: 0 <= k < |gs| - 1 ==> Closes(gs[k], gs[k + 1][0], p, sim, dim)
  }

  /** Within a group, no member after the first met the closing test. */
  predicate NoCloseInside(g: seq<Member>, p: Params, sim: (Vector, Vector) -> real, dim: nat)
    requires MemberDims(g, dim)
  {
    forall j :: 0 < j < |g| ==> !Closes(g[..j], g[j], p, sim, dim)
  }

  predicate NoneCloseInside(gs: seq<seq<Member>>, p: Params, sim: (Vector, Vector) -> real, dim: nat)
    requires GroupsWF(gs, dim)
  {
    forall k :: 0 <= k < |gs| ==> NoCloseInside(gs[k], p, sim, dim)
  }

  /** A new group after one that met the closing test against its first member. */
  lemma {:induction false} RuleAfterClose(gs: seq<seq<Member>>, m: Member, p: Params, sim: (Vector, Vector) -> real, dim: nat)
    requires GroupsWF(gs, dim) && gs != [] && |m.emb| == dim
    requires Chained(gs, p, sim, dim) && NoneCloseInside(gs, p, sim, dim)
    requires Closes(gs[|gs| - 1], m, p, sim, dim)
    ensures GroupsWF(gs + [[m]], dim)
    ensures Chained(gs + [[m]], p, sim, dim) && NoneCloseInside(gs + [[m]], p, sim, dim)
  {
    NewGroupWF(gs, m, dim);
    NewGroupChained(gs, m, p, sim, dim);
    NewGroupInside(gs, m, p, sim, dim);
  }

  lemma {:induction false} NewGroupWF(gs: seq<seq<Member>>, m: Member, dim: nat)
    requires GroupsWF(gs, dim) && |m.emb| == dim
    ensures GroupsWF(gs + [[m]], dim)
  {
    var hs := gs + [[m]];
    forall k | 0 <= k < |hs|
      ensures hs[k] != [] && MemberDims(hs[k], dim)
    {
      if k < |gs| {
        assert hs[k] == gs[k];
      }
    }
  }

  lemma {:induction false} NewGroupChained(gs: seq<seq<Member>>, m: Member, p: Params, sim: (Vector, Vector) -> real, dim: nat)
    requires GroupsWF(gs, dim) && gs != [] && |m.emb| == dim
    requires Chained(gs, p, sim, dim)
    requires Closes(gs[|gs| - 1], m, p, sim, dim)
    ensures GroupsWF(gs + [[m]], dim) && Chained(gs + [[m]], p, sim, dim)
  {
    NewGroupWF(gs, m, dim);
    var hs := gs + [[m]];
    forall k | 0 <= k < |hs| - 1
      ensures Closes(hs[k], hs[k + 1][0], p, sim, dim)
    {
      assert hs[k] == gs[k];
      if k + 1 < |gs| {
        assert hs[k + 1] == gs[k + 1];
      } else {
        assert hs[k + 1] == [m];
      }
    }
  }

  lemma {:induction false} NewGroupInside(gs: seq<seq<Member>>, m: Member, p: Params, sim: (Vector, Vector) -> real, dim: nat)
    requires GroupsWF(gs, dim) && |m.emb| == dim
    requires NoneCloseInside(gs, p, sim, dim)
    ensures GroupsWF(gs + [[m]], dim) && NoneCloseInside(gs + [[m]], p, sim, dim)
  {
    NewGroupWF(gs, m, dim);
    var hs := gs + [[m]];
    forall k | 0 <= k < |hs|
      ensures NoCloseInside(hs[k], p, sim, dim)
    {
      if k < |gs| {
        assert hs[k] == gs[k];
      } else {
        assert hs[k] == [m];
      }
    }
  }

  /** A member that does not meet the closing test joins the last group. */
  lemma {:induction false} RuleAfterMerge(pre: seq<seq<Member>>, c: seq<Member>, m: Member,
                       p: Params, sim: (Vector, Vector) -> real, dim: nat)
    requires c != [] && MemberDims(c, dim) && |m.emb| == dim
    requires GroupsWF(pre + [c], dim)
    requires Chained(pre + [c], p, sim, dim) && NoneCloseInside(pre + [c], p, sim, dim)
    requires !Closes(c, m, p, sim, dim)
    ensures GroupsWF(pre + [c + [m]], dim)
    ensures Chained(pre + [c + [m]], p, sim, dim) && NoneCloseInside(pre + [c + [m]], p, sim, dim)
  {
    var gs, hs := pre + [c], pre + [c + [m]];
    assert gs[|pre|] == c;
    assert MemberDims(c + [m], dim);
    assert forall k :: 0 <= k < |hs| ==> hs[k] == if k < |pre| then gs[k] else c + [m];
    ChainedAfterMerge(pre, c, m, p, sim, dim);
    MergeKeepsInside(c, m, p, sim, dim);
    forall k | 0 <= k < |hs|
      ensures NoCloseInside(hs[k], p, sim, dim)
    {
      if k < |pre| {
        assert hs[k] == gs[k];
      }
    }
  }

  lemma {:induction false} ChainedAfterMerge(pre: seq<seq<Member>>, c: seq<Member>, m: Member,
                          p: Params, sim: (Vector, Vector) -> real, dim: nat)
    requires c != [] && MemberDims(c + [m], dim)
    requires GroupsWF(pre + [c], dim) && Chained(pre + [c], p, sim, dim)
    ensures GroupsWF(pre + [c + [m]], dim) && Chained(pre + [c + [m]], p, sim, dim)
  {
    var gs, hs := pre + [c], pre + [c + [m]];
    assert forall k :: 0 <= k < |hs| ==> hs[k] == if k < |pre| then gs[k] else c + [m];
    forall k | 0 <= k < |hs| - 1
      ensures Closes(hs[k], hs[k + 1][0], p, sim, dim)
    {
      assert hs[k] == gs[k] && hs[k + 1][0] == gs[k + 1][0];
    }
  }

  lemma {:induction false} MergeKeepsInside(c: seq<Member>, m: Member, p: Params, sim: (Vector, Vector) -> real, dim: nat)
    requires c != [] && MemberDims(c, dim) && |m.emb| == dim
    requires NoCloseInside(c, p, sim, dim) && !Closes(c, m, p, sim, dim)
    ensures MemberDims(c + [m], dim) && NoCloseInside(c + [m], p, sim, dim)
  {
    var cm := c + [m];
    MergeDims(c, m, dim);
    forall j | 0 < j < |cm|
      ensures !Closes(cm[..j], cm[j], p, sim, dim)
    {
      if j < |c| {
        EarlierStillInside(c, m, p, sim, dim, j);
      } else {
        assert cm[..j] == c && cm[j] == m;
      }
    }
  }

  lemma {:induction false} MergeDims(c: seq<Member>, m: Member, dim: nat)
    requires MemberDims(c, dim) && |m.emb| == dim
    ensures MemberDims(c + [m], dim)
  {
  }

  lemma {:induction false} EarlierStillInside(c: seq<Member>, m: Member, p: Params, sim: (Vector, Vector) -> real, dim: nat, j: nat)
    requires MemberDims(c, dim) && |m.emb| == dim && 0 < j < |c|
    requires NoCloseInside(c, p, sim, dim)
    ensures MemberDims(c + [m], dim) && !Closes((c + [m])[..j], (c + [m])[j], p, sim, dim)
  {
    MergeDims(c, m, dim);
    assert (c + [m])[..j] == c[..j] && (c + [m])[j] == c[j];
  }

  /**
   * A chunk is closed only by the rule, and always when the rule fires: each emitted group
   * met the closing test against the first block of the next group, and no block inside a
   * group met it against the blocks before it in that group.
   */
  lemma {:induction false} AllGroupsRule(ms: seq<Member>, p: Params, sim: (Vector, Vector) -> real, dim: nat)
    requires MemberDims(ms, dim)
    ensures var gs := AllGroups(ms, p, sim, dim);
      GroupsWF(gs, dim) && Chained(gs, p, sim, dim) && NoneCloseInside(gs, p, sim, dim)
    decreases |ms|
  {
    if ms != [] {
      var init, m := ms[..|ms| - 1], ms[|ms| - 1];
      var prev := AllGroups(init, p, sim, dim);
      AllGroupsStep(ms, p, sim, dim);
      AllGroupsRule(init, p, sim, dim);
      if init == [] {
        assert NoCloseInside([m], p, sim, dim);
      } else {
        var c := Group(init, p, sim, dim).current;
        var pre := prev[..|prev| - 1];
        if Closes(c, m, p, sim, dim) {
          RuleAfterClose(prev, m, p, sim, dim);
        } else {
          assert prev == pre + [c];
          RuleAfterMerge(pre, c, m, p, sim, dim);
        }
      }
    }
  }

  /**
   * A chunk below `min_tokens` can be closed before the end: a first block short of the
   * minimum followed by one that would pass the ceiling gives two chunks, whatever the
   * similarity.
   */
  lemma {:induction false} BelowMinimum(a: Member, b: Member, p: Params, sim: (Vector, Vector) -> real, dim: nat)
    requires |a.emb| == dim && |b.emb| == dim
    requires WordCount(a.block.text) < p.minTokens
    requires WordCount(a.block.text) + WordCount(b.block.text) > p.maxTokens
    ensures AllGroups([a, b], p, sim, dim) == [[a], [b]]
    ensures Tokens([a]) < p.minTokens
  {
    assert [a, b][..1] == [a];
    assert [a][..0] == [];
    StartGroup(a, dim);
    assert Group([a], p, sim, dim) == State([], [a]);
    assert Closes([a], b, p, sim, dim);
  }

  // ---------------------------------------------------------------- semantic_chunk_blocks

  /** The chunks of `semantic_chunk_blocks` over the paired blocks and embeddings. */
  function SemanticChunks(ms: seq<Member>, p: Params, sim: (Vector, Vector) -> real, dim: nat): seq<Chunk>
    requires MemberDims(ms, dim)
  {
    AllGroupsPartition(ms, p, sim, dim);
    BuildChunks(AllGroups(ms, p, sim, dim))
  }

  /**
   * One chunk per group, chunk `k` built from the blocks of group `k` with id `k`: the ids
   * are 0, 1, ..., and no input gives no chunk.
   */
  lemma {:induction false} SemanticChunksIds(ms: seq<Member>, p: Params, sim: (Vector, Vector) -> real, dim: nat)
    requires MemberDims(ms, dim)
    ensures var gs, r := AllGroups(ms, p, sim, dim), SemanticChunks(ms, p, sim, dim);
      && |r| == |gs| && (r == [] <==> ms == [])
      && forall k :: 0 <= k < |r| ==>
           gs[k] != [] && r[k] == BuildChunk(MemberBlocks(gs[k]), k) && r[k].metadata.globalChunkId == k
  {
    AllGroupsPartition(ms, p, sim, dim);
    var gs := AllGroups(ms, p, sim, dim);
    forall k | 0 <= k < |gs|
      ensures BuildChunks(gs)[k] == BuildChunk(MemberBlocks(gs[k]), k)
      ensures BuildChunks(gs)[k].metadata.globalChunkId == k
    {
      BuildChunksAt(gs, k);
    }
  }

  /** `embed_batch(texts, batch_size)` over the block texts, as a value. */
  function BlockEmbeddings(blocks: seq<Block>, batchSize: int, embed: seq<string> -> seq<Vector>): seq<Vector> {
    if batchSize > 0 then EmbedEach(Batches(BlockTexts(blocks), batchSize), embed) else []
  }

  lemma {:induction false} EmbedEachDims(batches: seq<seq<string>>, embed: seq<string> -> seq<Vector>, dim: nat)
    requires forall ts :: HasDim(embed(ts), dim)
    ensures HasDim(EmbedEach(batches, embed), dim)
    decreases |batches|
  {
    if batches != [] {
      EmbedEachDims(batches[1..], embed, dim);
      assert HasDim(embed(batches[0]), dim);
    }
  }

  /** With an embedding service of the index's dimension, every paired block has it too. */
  lemma {:induction false} ZipDims(blocks: seq<Block>, batchSize: int, embed: seq<string> -> seq<Vector>)
    requires forall ts :: HasDim(embed(ts), EmbeddingDim)
    ensures MemberDims(Zip(blocks, BlockEmbeddings(blocks, batchSize, embed)), EmbeddingDim)
  {
    if batchSize > 0 {
      EmbedEachDims(Batches(BlockTexts(blocks), batchSize), embed, EmbeddingDim);
    }
  }

  /**
   * With an order-preserving, one-vector-per-text embedding and a positive batch size, every
   * block is paired, so the chunks' blocks, concatenated, are exactly the input blocks.
   */
  lemma {:induction false} SemanticChunksCover(blocks: seq<Block>, p: Params, sim: (Vector, Vector) -> real,
                            batchSize: int, embed: seq<string> -> seq<Vector>, f: string -> Vector)
    requires batchSize > 0
    requires forall ts :: embed(ts) == Pointwise(f, ts)
    requires forall t :: |f(t)| == EmbeddingDim
    ensures var ms := Zip(blocks, BlockEmbeddings(blocks, batchSize, embed));
      MemberDims(ms, EmbeddingDim) && MemberBlocks(ms) == blocks
      && MemberBlocks(Flatten(AllGroups(ms, p, sim, EmbeddingDim))) == blocks
  {
    var embs := BlockEmbeddings(blocks, batchSize, embed);
    BatchSizeInvisible(BlockTexts(blocks), batchSize, embed, f);
    var ms := Zip(blocks, embs);
    assert MemberDims(ms, EmbeddingDim);
    assert MemberBlocks(ms) == blocks;
    AllGroupsPartition(ms, p, sim, EmbeddingDim);
  }

  /** The chunks of `semantic_chunk_blocks(blocks)` with thresholds `p`, as a value. */
  function SemanticChunksOf(blocks: seq<Block>, p: Params, batchSize: int,
                            embed: seq<string> -> seq<Vector>, sim: (Vector, Vector) -> real): seq<Chunk>
    requires forall ts :: HasDim(embed(ts), EmbeddingDim)
  {
    ZipDims(blocks, batchSize, embed);
    SemanticChunks(Zip(blocks, BlockEmbeddings(blocks, batchSize, embed)), p, sim, EmbeddingDim)
  }

  /** A group's first member: its blocks, tokens and centroid are those of that member. */
  lemma {:induction false} StartGroup(m: Member, dim: nat)
    requires |m.emb| == dim
    ensures MemberDims([m], dim)
    ensures MemberBlocks([m]) == [m.block] && Tokens([m]) == WordCount(m.block.text)
    ensures Centroid([m], dim) == m.emb
  {
    TokensSnoc([], m);
    assert [] + [m] == [m];
    assert Embs([m]) == [m.emb];
    MeanOfOne(m.emb);
  }

  /** Merging a member: one more block, its tokens added, the centroid updated incrementally. */
  lemma {:induction false} MergeGroup(g: seq<Member>, m: Member, dim: nat)
    requires g != [] && MemberDims(g, dim) && |m.emb| == dim
    ensures MemberDims(g + [m], dim)
    ensures MemberBlocks(g + [m]) == MemberBlocks(g) + [m.block]
    ensures Tokens(g + [m]) == Tokens(g) + WordCount(m.block.text)
    ensures Centroid(g + [m], dim) == UpdateCentroid(Centroid(g, dim), m.emb, |g|)
  {
    TokensSnoc(g, m);
    assert Embs(g + [m]) == Embs(g) + [m.emb];
    IncrementalMean(Embs(g), m.emb, dim);
  }

  /** Closing a group appends its chunk, numbered after the ones before it. */
  lemma {:induction false} BuildChunksSnoc(gs: seq<seq<Member>>, g: seq<Member>)
    requires NonEmptyGroups(gs) && g != []
    ensures NonEmptyGroups(gs + [g])
    ensures BuildChunks(gs + [g]) == BuildChunks(gs) + [BuildChunk(MemberBlocks(g), |gs|)]
  {
    assert (gs + [g])[..|gs|] == gs;
  }

  /**
   * `semantic_chunk_blocks`: embeds all block texts once, then walks the (block, embedding)
   * pairs keeping the running token count and the running centroid of the current group.
   */
  method SemanticChunkBlocks(
    blocks: seq<Block>, embed: seq<string> -> seq<Vector>, sim: (Vector, Vector) -> real,
    maxTokens: int := 800, minTokens: int := 200, simThreshold: real := 0.78, batchSize: int := 16)
    returns (chunks: seq<Chunk>)
    requires batchSize != 0
    requires forall ts :: HasDim(embed(ts), EmbeddingDim)
    ensures chunks == SemanticChunksOf(blocks, Params(maxTokens, minTokens, simThreshold), batchSize, embed, sim)
  {
    var texts := BlockTexts(blocks);
    var embeddings := EmbedBatch(texts, batchSize, embed);
    ZipDims(blocks, batchSize, embed);
    chunks := GroupPairs(blocks, embeddings, sim, maxTokens, minTokens, simThreshold);
  }

  /** The loop variables of `semantic_chunk_blocks` stand for the state `s` of the fold. */
  ghost predicate Tracks(s: State, chunks: seq<Chunk>, current: seq<Block>, currentTokens: int,
                         currentEmb: Vector, currentCount: int, globalChunkId: int)
  {
    && NonEmptyGroups(s.closed) && MemberDims(s.current, EmbeddingDim)
    && chunks == BuildChunks(s.closed) && globalChunkId == |chunks|
    && current == MemberBlocks(s.current) && currentTokens == Tokens(s.current)
    && currentCount == |current|
    && (current != [] ==> currentEmb == Centroid(s.current, EmbeddingDim))
  }

  lemma {:induction false} GroupStep(ms: seq<Member>, i: nat, p: Params, sim: (Vector, Vector) -> real, dim: nat)
    requires MemberDims(ms, dim) && i < |ms|
    ensures Group(ms[..i + 1], p, sim, dim) == Step(Group(ms[..i], p, sim, dim), ms[i], p, sim, dim)
  {
    assert ms[..i + 1][..i] == ms[..i];
  }

  lemma {:induction false} TracksAfterStart(s: State, m: Member, chunks: seq<Chunk>, currentTokens: int,
                         currentEmb: Vector, currentCount: int, globalChunkId: int)
    requires Tracks(s, chunks, [], currentTokens, currentEmb, currentCount, globalChunkId)
    requires |m.emb| == EmbeddingDim
    ensures Tracks(State(s.closed, [m]), chunks, [m.block], WordCount(m.block.text), m.emb, 1, globalChunkId)
  {
    StartGroup(m, EmbeddingDim);
  }

  lemma {:induction false} TracksAfterClose(s: State, m: Member, chunks: seq<Chunk>, current: seq<Block>, currentTokens: int,
                         currentEmb: Vector, currentCount: int, globalChunkId: int)
    requires Tracks(s, chunks, current, currentTokens, currentEmb, currentCount, globalChunkId)
    requires current != [] && |m.emb| == EmbeddingDim
    ensures Tracks(State(s.closed + [s.current], [m]), chunks + [BuildChunk(current, globalChunkId)],
                   [m.block], WordCount(m.block.text), m.emb, 1, globalChunkId + 1)
  {
    BuildChunksSnoc(s.closed, s.current);
    StartGroup(m, EmbeddingDim);
  }

  lemma {:induction false} TracksAfterMerge(s: State, m: Member, chunks: seq<Chunk>, current: seq<Block>, currentTokens: int,
                         currentEmb: Vector, currentCount: int, globalChunkId: int)
    requires Tracks(s, chunks, current, currentTokens, currentEmb, currentCount, globalChunkId)
    requires current != [] && |m.emb| == EmbeddingDim
    ensures |m.emb| >= |currentEmb| && currentCount != -1
    ensures Tracks(State(s.closed, s.current + [m]), chunks, current + [m.block],
                   currentTokens + WordCount(m.block.text), UpdateCentroid(currentEmb, m.emb, currentCount),
                   currentCount + 1, globalChunkId)
  {
    MergeGroup(s.current, m, EmbeddingDim);
  }

  /** The loop of `semantic_chunk_blocks` over `zip(blocks, embeddings)`. */
  method GroupPairs(blocks: seq<Block>, embeddings: seq<Vector>, sim: (Vector, Vector) -> real,
                    maxTokens: int, minTokens: int, simThreshold: real)
    returns (chunks: seq<Chunk>)
    requires MemberDims(Zip(blocks, embeddings), EmbeddingDim)
    ensures chunks == SemanticChunks(Zip(blocks, embeddings), Params(maxTokens, minTokens, simThreshold), sim, EmbeddingDim)
  {
    ghost var ms := Zip(blocks, embeddings);
    ghost var p := Params(maxTokens, minTokens, simThreshold);
    chunks := [];
    var current: seq<Block> := [];
    var currentTokens := 0;
    var currentEmb: Vector := [];
    var currentCount := 0;
    var globalChunkId := 0;
    var n := Min(|blocks|, |embeddings|);
    for i := 0 to n
      invariant Tracks(Group(ms[..i], p, sim, EmbeddingDim), chunks, current, currentTokens,
                       currentEmb, currentCount, globalChunkId)
    {
      var block, emb := blocks[i], embeddings[i];
      var tokens := WordCount(block.text);
      ghost var s := Group(ms[..i], p, sim, EmbeddingDim);
      ghost var m := Member(block, emb);
      assert ms[i] == m;
      GroupStep(ms, i, p, sim, EmbeddingDim);
      if current == [] {
        TracksAfterStart(s, m, chunks, currentTokens, currentEmb, currentCount, globalChunkId);
        current, currentEmb, currentCount, currentTokens := [block], emb, 1, tokens;
      } else if (sim(currentEmb, emb) < simThreshold && currentTokens >= minTokens)
        || currentTokens + tokens > maxTokens {
        assert Closes(s.current, m, p, sim, EmbeddingDim);
        TracksAfterClose(s, m, chunks, current, currentTokens, currentEmb, currentCount, globalChunkId);
        chunks := chunks + [BuildChunk(current, globalChunkId)];
        globalChunkId := globalChunkId + 1;
        current, currentEmb, currentCount, currentTokens := [block], emb, 1, tokens;
      } else {
        assert !Closes(s.current, m, p, sim, EmbeddingDim);
        TracksAfterMerge(s, m, chunks, current, currentTokens, currentEmb, currentCount, globalChunkId);
        current := current + [block];
        currentEmb := UpdateCentroid(currentEmb, emb, currentCount);
        currentCount := currentCount + 1;
        currentTokens := currentTokens + tokens;
      }
    }
    assert ms[..n] == ms;
    ghost var s := Group(ms, p, sim, EmbeddingDim);
    if current != [] {
      BuildChunksSnoc(s.closed, s.current);
      chunks := chunks + [BuildChunk(current, globalChunkId)];
    } else {
      assert s.closed + [] == s.closed;
    }
  }

  // ---------------------------------------------------------------- chunk_multiple_pdfs

  /** The chunks of one document with `doc_id` set to its path; nothing else changes. */
  function Stamp(chunks: seq<Chunk>, path: string): (r: seq<Chunk>)
    ensures |r| == |chunks|
    ensures forall k :: 0 <= k < |r| ==>
      && r[k].metadata.docId == Some(path)
      && r[k].text == chunks[k].text
      && r[k].metadata.(docId := None) == chunks[k].metadata.(docId := None)
  {
    seq(|chunks|, k requires 0 <= k < |chunks| => chunks[k].(metadata := chunks[k].metadata.(docId := Some(path))))
  }

  /** The loop of `chunk_multiple_pdfs` that sets `c["metadata"]["doc_id"]` on every chunk. */
  method StampDocId(chunks: seq<Chunk>, path: string) returns (r: seq<Chunk>)
    ensures r == Stamp(chunks, path)
  {
    r := [];
    for k := 0 to |chunks|
      invariant r == Stamp(chunks[..k], path)
    {
      var c := chunks[k];
      r := r + [c.(metadata := c.metadata.(docId := Some(path)))];
    }
    assert chunks[..|chunks|] == chunks;
  }

  /** The chunks `semantic_chunk_blocks` makes, with its defaults, of one document's blocks. */
  function DocumentChunks(path: string, pages: seq<string>, embed: seq<string> -> seq<Vector>,
                          sim: (Vector, Vector) -> real): seq<Chunk>
    requires forall ts :: HasDim(embed(ts), EmbeddingDim)
  {
    SemanticChunksOf(DocumentBlocks(path, pages), Params(800, 200, 0.78), 16, embed, sim)
  }

  /** The chunks of each document in turn, stamped with its path. */
  function AllStamped(paths: seq<string>, chunksOf: string -> seq<Chunk>): seq<Chunk> {
    if paths == [] then []
    else
      var path := paths[|paths| - 1];
      AllStamped(paths[..|paths| - 1], chunksOf) + Stamp(chunksOf(path), path)
  }

  /** Taking one more path appends that path's stamped chunks. */
  lemma {:induction false} AllStampedSnoc(paths: seq<string>, i: nat, chunksOf: string -> seq<Chunk>)
    requires i < |paths|
    ensures AllStamped(paths[..i + 1], chunksOf) == AllStamped(paths[..i], chunksOf) + Stamp(chunksOf(paths[i]), paths[i])
  {
    assert paths[..i + 1][..i] == paths[..i];
  }

  /**
   * `chunk_multiple_pdfs`: segments and groups every document in turn and appends its
   * chunks; the text of a path is `pagesOf(path)`.
   */
  method ChunkMultiplePdfs(pdfPaths: seq<string>, pagesOf: string -> seq<string>,
                           embed: seq<string> -> seq<Vector>, sim: (Vector, Vector) -> real)
    returns (allChunks: seq<Chunk>)
    requires forall ts :: HasDim(embed(ts), EmbeddingDim)
    ensures allChunks == AllStamped(pdfPaths, path => DocumentChunks(path, pagesOf(path), embed, sim))
  {
    ghost var chunksOf := path => DocumentChunks(path, pagesOf(path), embed, sim);
    allChunks := [];
    for i := 0 to |pdfPaths|
      invariant allChunks == AllStamped(pdfPaths[..i], chunksOf)
    {
      var pdfPath := pdfPaths[i];
      var blocks := PdfToChunks(pdfPath, pagesOf(pdfPath));
      var chunks := SemanticChunkBlocks(blocks, embed, sim);
      assert chunks == chunksOf(pdfPath);
      chunks := StampDocId(chunks, pdfPath);
      AllStampedSnoc(pdfPaths, i, chunksOf);
      allChunks := allChunks + chunks;
    }
    assert pdfPaths[..|pdfPaths|] == pdfPaths;
  }

  /** Within one document the ids are 0, 1, 2, ... */
  lemma {:induction false} DocumentChunkIds(path: string, pages: seq<string>, embed: seq<string> -> seq<Vector>,
                         sim: (Vector, Vector) -> real)
    requires forall ts :: HasDim(embed(ts), EmbeddingDim)
    ensures var r := DocumentChunks(path, pages, embed, sim);
      forall k :: 0 <= k < |r| ==> r[k].metadata.globalChunkId == k
  {
    var blocks := DocumentBlocks(path, pages);
    ZipDims(blocks, 16, embed);
    SemanticChunksIds(Zip(blocks, BlockEmbeddings(blocks, 16, embed)), Params(800, 200, 0.78), sim, EmbeddingDim);
  }

  /**
   * With an order-preserving, one-vector-per-text embedding, a document yields chunks
   * exactly when it yields blocks.
   */
  lemma {:induction false} DocumentChunksNonEmpty(path: string, pages: seq<string>, embed: seq<string> -> seq<Vector>,
                               sim: (Vector, Vector) -> real, f: string -> Vector)
    requires forall ts :: embed(ts) == Pointwise(f, ts)
    requires forall t :: |f(t)| == EmbeddingDim
    ensures forall ts :: HasDim(embed(ts), EmbeddingDim)
    ensures DocumentChunks(path, pages, embed, sim) == [] <==> DocumentBlocks(path, pages) == []
  {
    var blocks := DocumentBlocks(path, pages);
    var p := Params(800, 200, 0.78);
    SemanticChunksCover(blocks, p, sim, 16, embed, f);
    var ms := Zip(blocks, BlockEmbeddings(blocks, 16, embed));
    SemanticChunksIds(ms, p, sim, EmbeddingDim);
  }

  /** Every chunk carries the path of one of the documents. */
  lemma {:induction false} AllStampedDocIds(paths: seq<string>, chunksOf: string -> seq<Chunk>)
    ensures forall c: Chunk :: c in AllStamped(paths, chunksOf) ==> exists j :: 0 <= j < |paths| && c.metadata.docId == Some(paths[j])
    decreases |paths|
  {
    if paths != [] {
      var init, path := paths[..|paths| - 1], paths[|paths| - 1];
      var prev, own := AllStamped(init, chunksOf), Stamp(chunksOf(path), path);
      AllStampedDocIds(init, chunksOf);
      assert AllStamped(paths, chunksOf) == prev + own;
      forall c: Chunk | c in prev + own
        ensures exists j :: 0 <= j < |paths| && c.metadata.docId == Some(paths[j])
      {
        if c in prev {
          var j :| 0 <= j < |init| && c.metadata.docId == Some(init[j]);
          assert paths[j] == init[j];
        } else {
          var k :| 0 <= k < |own| && own[k] == c;
          assert c.metadata.docId == Some(paths[|paths| - 1]);
        }
      }
    }
  }

  /** Two documents in turn: the first one's chunks, then the second one's. */
  lemma {:induction false} AllStampedTwo(a: string, b: string, chunksOf: string -> seq<Chunk>)
    ensures AllStamped([a, b], chunksOf) == Stamp(chunksOf(a), a) + Stamp(chunksOf(b), b)
  {
    assert [a, b][..1] == [a];
    assert [a][..0] == [];
    assert AllStamped([a], chunksOf) == [] + Stamp(chunksOf(a), a);
  }

  /**
   * Ids restart at 0 for every document: two documents that each yield blocks give two
   * chunks with `global_chunk_id` 0, one per document.
   */
  lemma {:induction false} IdsRestartPerDocument(a: string, b: string, pagesOf: string -> seq<string>,
                              embed: seq<string> -> seq<Vector>, sim: (Vector, Vector) -> real, f: string -> Vector)
    requires forall ts :: embed(ts) == Pointwise(f, ts)
    requires forall t :: |f(t)| == EmbeddingDim
    requires DocumentBlocks(a, pagesOf(a)) != [] && DocumentBlocks(b, pagesOf(b)) != []
    ensures forall ts :: HasDim(embed(ts), EmbeddingDim)
    ensures var r := AllStamped([a, b], path => DocumentChunks(path, pagesOf(path), embed, sim));
      var n := |DocumentChunks(a, pagesOf(a), embed, sim)|;
      && 0 < n < |r|
      && r[0].metadata.globalChunkId == 0 && r[0].metadata.docId == Some(a)
      && r[n].metadata.globalChunkId == 0 && r[n].metadata.docId == Some(b)
  {
    DocumentChunksNonEmpty(a, pagesOf(a), embed, sim, f);
    DocumentChunksNonEmpty(b, pagesOf(b), embed, sim, f);
    DocumentChunkIds(a, pagesOf(a), embed, sim);
    DocumentChunkIds(b, pagesOf(b), embed, sim);
    var chunksOf := path => DocumentChunks(path, pagesOf(path), embed, sim);
    AllStampedTwo(a, b, chunksOf);
    var da, db := chunksOf(a), chunksOf(b);
    assert da == DocumentChunks(a, pagesOf(a), embed, sim);
    assert db == DocumentChunks(b, pagesOf(b), embed, sim);
  }
}
