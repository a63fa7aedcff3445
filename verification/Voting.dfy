/** The vote counting of consensus/PBFT.cpp and consensus/PoS.cpp: sets of voter ids per block id, and
    a set of final ids that an id joins when its voters reach the quorum. */
module Voting {
  import opened Basics
  import opened Blocks
  import Decimal

  datatype Vote = Vote(id: string, voter: string)

  datatype Tally = Tally(votes: map<string, set<string>>, final: set<string>)

  /** The voter id both engines use for whatever arrives from elsewhere. */
  const REMOTE: string := "remote"

  function Record(t: Tally, v: Vote, quorum: nat): Tally {
    var voters := (if v.id in t.votes then t.votes[v.id] else {}) + {v.voter};
    Tally(t.votes[v.id := voters], if |voters| >= quorum then t.final + {v.id} else t.final)
  }

  function RecordAll(history: seq<Vote>, quorum: nat): Tally {
    if history == [] then Tally(map[], {})
    else Record(RecordAll(history[..|history| - 1], quorum), history[|history| - 1], quorum)
  }

  lemma RecordLast(history: seq<Vote>, v: Vote, quorum: nat)
    ensures RecordAll(history + [v], quorum) == Record(RecordAll(history, quorum), v, quorum)
  {
    assert (history + [v])[..|history|] == history;
  }

  /** The distinct voters for an id. */
  function Voters(history: seq<Vote>, id: string): set<string> {
    set v | v in history && v.id == id :: v.voter
  }

  lemma VotersAppend(history: seq<Vote>, v: Vote, id: string)
    ensures Voters(history + [v], id) == Voters(history, id) + (if v.id == id then {v.voter} else {})
  {
    assert forall x :: x in history + [v] <==> x in history || x == v;
  }

  /** The tally and a set of voters agree on an id. */
  ghost predicate Agrees(t: Tally, voters: set<string>, quorum: nat, id: string) {
    && (id in t.final <==> |voters| >= quorum)
    && (if id in t.votes then t.votes[id] else {}) == voters
  }

  lemma RecordAgrees(t: Tally, voters: set<string>, quorum: nat, id: string, v: Vote)
    requires Agrees(t, voters, quorum, id)
    ensures Agrees(Record(t, v, quorum), voters + (if v.id == id then {v.voter} else {}), quorum, id)
  {
    SubsetSize(voters, voters + {v.voter});
    assert voters + {} == voters;
  }

  /** After any history an id is final exactly when its distinct voters reach the quorum. */
  lemma {:induction false} FinalExactly(history: seq<Vote>, quorum: nat, id: string)
    requires quorum > 0
    ensures Agrees(RecordAll(history, quorum), Voters(history, id), quorum, id)
  {
    if history == [] {
      assert Voters(history, id) == {};
    } else {
      var before, v := history[..|history| - 1], history[|history| - 1];
      FinalExactly(before, quorum, id);
      assert history == before + [v];
      VotersAppend(before, v, id);
      RecordAgrees(RecordAll(before, quorum), Voters(before, id), quorum, id, v);
    }
  }

  /** Repeating a vote that was already recorded changes nothing, however often and whenever. */
  lemma ReplayChangesNothing(history: seq<Vote>, quorum: nat, v: Vote)
    requires quorum > 0 && v in history
    ensures RecordAll(history + [v], quorum) == RecordAll(history, quorum)
  {
    var t := RecordAll(history, quorum);
    FinalExactly(history, quorum, v.id);
    assert v.voter in Voters(history, v.id);
    assert (history + [v])[..|history|] == history;
    assert Voters(history, v.id) + {v.voter} == Voters(history, v.id);
    assert v.id in t.votes;
    assert t.votes[v.id := t.votes[v.id]] == t.votes;
    if v.id in t.final {
      assert t.final + {v.id} == t.final;
    }
  }

  // ---------------------------------------------------------------- one node

  /** What one engine's callers do: propose on top of prev, or hand in a block from elsewhere. */
  datatype Deed = Proposed(chainId: string, prev: Block) | Received(block: Block)

  /** The vote a deed casts at the engine of this node; the state root is not part of the id. */
  function VoteOf(deed: Deed, node: string): Vote {
    match deed
    case Proposed(chainId, prev) => Vote(BlockId(NextHeader(chainId, prev, "")), node)
    case Received(block) => Vote(BlockId(block.header), REMOTE)
  }

  function VotesOf(deeds: seq<Deed>, node: string): seq<Vote> {
    seq(|deeds|, i requires 0 <= i < |deeds| => VoteOf(deeds[i], node))
  }

  ghost predicate VotedBy(history: seq<Vote>, node: string) {
    forall v :: v in history ==> v.voter == node || v.voter == REMOTE
  }

  lemma VotesOfNode(deeds: seq<Deed>, node: string)
    ensures VotedBy(VotesOf(deeds, node), node)
  {
  }

  /** An engine whose callers only ever use one node id has seen two voters at most. */
  lemma TwoVoters(history: seq<Vote>, node: string, id: string)
    requires VotedBy(history, node)
    ensures |Voters(history, id)| <= |{node, REMOTE}|
  {
    SubsetSize(Voters(history, id), {node, REMOTE});
  }

  /** Every block can be proposed, as heights wrap and state roots are free. */
  lemma Proposable(h: Header) returns (prev: Block)
    ensures BlockId(NextHeader(h.chainId, prev, "")) == BlockId(h)
  {
    var height: Uint64 := if h.height == 0 then MAX64 else h.height - 1;
    prev := Block(Header(h.chainId, height, "", h.prevHash), [], "");
  }

  ghost predicate CanFinalizeAlone(node: string, quorum: nat, h: Header) {
    exists deeds :: BlockId(h) in RecordAll(VotesOf(deeds, node), quorum).final
  }

  lemma OneNodeReaches(node: string, quorum: nat, h: Header)
    requires 0 < quorum <= |{node, REMOTE}|
    ensures CanFinalizeAlone(node, quorum, h)
  {
    var prev := Proposable(h);
    var deeds := [Proposed(h.chainId, prev), Received(Block(h, [], ""))];
    var votes := VotesOf(deeds, node);
    assert votes == [Vote(BlockId(h), node), Vote(BlockId(h), REMOTE)];
    assert votes[0] in votes && votes[1] in votes;
    assert Voters(votes, BlockId(h)) == {node, REMOTE};
    FinalExactly(votes, quorum, BlockId(h));
  }

  /** An engine that proposes under one node id only ever sees two voters, so its callers can get any
      given block finalized exactly when the quorum does not exceed the number of these two names. */
  lemma OneNodeFinalizesExactly(node: string, quorum: nat, h: Header)
    requires quorum > 0
    ensures CanFinalizeAlone(node, quorum, h) <==> quorum <= |{node, REMOTE}|
  {
    if quorum <= |{node, REMOTE}| {
      OneNodeReaches(node, quorum, h);
    } else if deeds :| BlockId(h) in RecordAll(VotesOf(deeds, node), quorum).final {
      FinalExactly(VotesOf(deeds, node), quorum, BlockId(h));
      VotesOfNode(deeds, node);
      TwoVoters(VotesOf(deeds, node), node, BlockId(h));
    }
  }

  /** For PBFT that means no fault tolerance at all, or the one f whose quorum wraps to 1. */
  lemma PbftAloneExactly(node: string, f: Uint64, h: Header)
    ensures CanFinalizeAlone(node, PbftQuorum(f), h) <==> f == 0 || f == 0x8000_0000_0000_0000
  {
    QuorumsArePositive(f);
    OneNodeFinalizesExactly(node, PbftQuorum(f), h);
    NameCount(node);
    PbftQuorumFits(f, |{node, REMOTE}|);
  }

  /** The validator counts whose PoS quorum is at most names, which is 1 or 2; from 2^63 on the doubled
      count wraps. */
  predicate FewValidators(n: Uint64, names: nat) {
    n <= names || 0x8000_0000_0000_0000 <= n <= 0x8000_0000_0000_0000 + names
  }

  lemma PbftQuorumFits(f: Uint64, names: nat)
    requires names == 1 || names == 2
    ensures PbftQuorum(f) <= names <==> f == 0 || f == 0x8000_0000_0000_0000
  {
  }

  lemma PosQuorumFits(n: Uint64, names: nat)
    requires names == 1 || names == 2
    ensures PosQuorum(n) <= names <==> FewValidators(n, names)
  {
  }

  lemma PosAloneExactly(node: string, validators: Uint64, h: Header)
    ensures CanFinalizeAlone(node, PosQuorum(validators), h) <==> FewValidators(validators, |{node, REMOTE}|)
  {
    QuorumsArePositive(validators);
    OneNodeFinalizesExactly(node, PosQuorum(validators), h);
    NameCount(node);
    PosQuorumFits(validators, |{node, REMOTE}|);
  }

  lemma NameCount(node: string)
    ensures |{node, REMOTE}| == if node == REMOTE then 1 else 2
  {
    if node == REMOTE {
      assert {node, REMOTE} == {REMOTE};
    }
  }

  // ---------------------------------------------------------------- quorums

  /** size_t arithmetic: 2 * f + 1 modulo 2^64. */
  function PbftQuorum(f: Uint64): Uint64 {
    (2 * f + 1) % 0x1_0000_0000_0000_0000
  }

  /** size_t arithmetic: the product wraps before the division. */
  function PosQuorum(validators: Uint64): Uint64 {
    (validators * 2) % 0x1_0000_0000_0000_0000 / 3 + 1
  }

  lemma QuorumsArePositive(n: Uint64)
    ensures PbftQuorum(n) > 0 && PosQuorum(n) > 0
  {
  }

  lemma Overlap(a: set<string>, b: set<string>, all: set<string>)
    requires a <= all && b <= all
    ensures |a| + |b| <= |all| + |a * b|
  {
    assert a + b <= all;
    SubsetSize(a + b, all);
    assert |a + b| == |a| + |b| - |a * b|;
  }

  /** Among 3f + 1 voters any two quorums share f + 1, unless 2f + 1 wraps. */
  lemma PbftQuorumsIntersect(f: Uint64, a: set<string>, b: set<string>, all: set<string>)
    requires f < 0x8000_0000_0000_0000 && |all| == 3 * f + 1
    requires a <= all && b <= all && |a| >= PbftQuorum(f) && |b| >= PbftQuorum(f)
    ensures |a * b| >= f + 1
  {
    Overlap(a, b, all);
  }

  /** Among n validators any two quorums share more than a third. */
  lemma PosQuorumsIntersect(n: Uint64, a: set<string>, b: set<string>, all: set<string>)
    requires n < 0x8000_0000_0000_0000 && |all| == n
    requires a <= all && b <= all && |a| >= PosQuorum(n) && |b| >= PosQuorum(n)
    ensures 3 * |a * b| > n
  {
    Overlap(a, b, all);
  }

  lemma {:induction false} SomeOf(all: set<string>, k: nat) returns (some: set<string>)
    requires k <= |all|
    ensures some <= all && |some| == k
  {
    if k == 0 {
      some := {};
    } else {
      var x :| x in all;
      var rest := SomeOf(all - {x}, k - 1);
      some := rest + {x};
    }
  }

  /** Two sets of q out of n ids can be made to share no more than they must. */
  lemma LeastOverlap(all: set<string>, q: nat) returns (a: set<string>, b: set<string>)
    requires q <= |all|
    ensures a <= all && b <= all && |a| == q && |b| == q
    ensures |a * b| == if 2 * q <= |all| then 0 else 2 * q - |all|
  {
    a := SomeOf(all, q);
    var rest := all - a;
    assert |rest| == |all| - q;
    if 2 * q <= |all| {
      b := SomeOf(rest, q);
      assert a * b == {};
    } else {
      var shared := SomeOf(a, 2 * q - |all|);
      b := rest + shared;
      assert a * b == shared;
    }
  }

  /** The PBFT quorum is the least that does it: any smaller number of voters out of 3f + 1 can come in two
      sets that share f or fewer. */
  lemma PbftQuorumIsLeast(f: Uint64, q: nat, all: set<string>) returns (a: set<string>, b: set<string>)
    requires f < 0x8000_0000_0000_0000 && |all| == 3 * f + 1 && q < PbftQuorum(f)
    ensures a <= all && b <= all && |a| == q && |b| == q && |a * b| <= f
  {
    a, b := LeastOverlap(all, q);
  }

  /** And so is the PoS quorum: any smaller number of validators can come in two sets that share a third or
      less. */
  lemma PosQuorumIsLeast(n: Uint64, q: nat, all: set<string>) returns (a: set<string>, b: set<string>)
    requires n < 0x8000_0000_0000_0000 && |all| == n && q < PosQuorum(n)
    ensures a <= all && b <= all && |a| == q && |b| == q && 3 * |a * b| <= n
  {
    a, b := LeastOverlap(all, q);
  }

  // ---------------------------------------------------------------- the engines

  class PBFT {
    const f: Uint64
    const hash: string -> Uint64
    var prepareVotes: map<string, set<string>>
    var commitVotes: map<string, set<string>>
    var finalizedBlocks: set<string>
    ghost var history: seq<Vote>

    ghost predicate Valid()
      reads this
    {
      && Tally(commitVotes, finalizedBlocks) == RecordAll(history, PbftQuorum(f))
      && prepareVotes == commitVotes
    }

    constructor (f: Uint64, hash: string -> Uint64)
      ensures Valid() && history == [] && this.f == f && this.hash == hash
    {
      this.f, this.hash := f, hash;
      prepareVotes, commitVotes, finalizedBlocks, history := map[], map[], {}, [];
    }

    method CountVote(id: string, voter: string)
      requires Valid()
      modifies this
      ensures Valid() && history == old(history) + [Vote(id, voter)]
    {
      RecordLast(history, Vote(id, voter), PbftQuorum(f));
      ghost var after := Record(Tally(commitVotes, finalizedBlocks), Vote(id, voter), PbftQuorum(f));
      var prepared := if id in prepareVotes then prepareVotes[id] else {};
      prepareVotes := prepareVotes[id := prepared + {voter}];
      var committed := if id in commitVotes then commitVotes[id] else {};
      commitVotes := commitVotes[id := committed + {voter}];
      if |committed + {voter}| >= PbftQuorum(f) {
        finalizedBlocks := finalizedBlocks + {id};
      }
      assert commitVotes == after.votes && finalizedBlocks == after.final;
      history := history + [Vote(id, voter)];
    }

    method Propose(chainId: string, nodeId: string, txs: seq<Transaction>, prev: Block) returns (block: Block)
      requires Valid()
      modifies this
      ensures Valid() && history == old(history) + [Vote(BlockId(block.header), nodeId)]
      ensures block ==
          Block(NextHeader(chainId, prev, Decimal.Print(StateRootHash(txs, hash))), txs, "PBFT:proposed")
      ensures block.header.chainId == chainId && block.header.prevHash == prev.header.stateRoot
      ensures block.header.height == (prev.header.height + 1) % 0x1_0000_0000_0000_0000
    {
      var root := ComputeStateRoot(txs, hash);
      block := Block(NextHeader(chainId, prev, root), txs, "PBFT:proposed");
      NextHeaderFollows(chainId, prev, root);
      CountVote(BlockId(block.header), nodeId);
    }

    method OnRemoteBlock(block: Block)
      requires Valid()
      modifies this
      ensures Valid() && history == old(history) + [Vote(BlockId(block.header), "remote")]
    {
      CountVote(BlockId(block.header), REMOTE);
    }

    method IsFinal(block: Block) returns (final: bool)
      requires Valid()
      ensures final <==> |Voters(history, BlockId(block.header))| >= PbftQuorum(f)
    {
      final := BlockId(block.header) in finalizedBlocks;
      QuorumsArePositive(f);
      FinalExactly(history, PbftQuorum(f), BlockId(block.header));
    }
  }

  class PoS {
    const validators: Uint64
    const hash: string -> Uint64
    var signatures: map<string, set<string>>
    var finalizedBlocks: set<string>
    ghost var history: seq<Vote>

    ghost predicate Valid()
      reads this
    {
      Tally(signatures, finalizedBlocks) == RecordAll(history, PosQuorum(validators))
    }

    constructor (validators: Uint64, hash: string -> Uint64)
      ensures Valid() && history == [] && this.validators == validators && this.hash == hash
    {
      this.validators, this.hash := validators, hash;
      signatures, finalizedBlocks, history := map[], {}, [];
    }

    method CountSignature(id: string, voter: string)
      requires Valid()
      modifies this
      ensures Valid() && history == old(history) + [Vote(id, voter)]
    {
      RecordLast(history, Vote(id, voter), PosQuorum(validators));
      ghost var after := Record(Tally(signatures, finalizedBlocks), Vote(id, voter), PosQuorum(validators));
      var signers := if id in signatures then signatures[id] else {};
      signatures := signatures[id := signers + {voter}];
      if |signers + {voter}| >= PosQuorum(validators) {
        finalizedBlocks := finalizedBlocks + {id};
      }
      assert signatures == after.votes && finalizedBlocks == after.final;
      history := history + [Vote(id, voter)];
    }

    method Propose(chainId: string, nodeId: string, txs: seq<Transaction>, prev: Block) returns (block: Block)
      requires Valid()
      modifies this
      ensures Valid() && history == old(history) + [Vote(BlockId(block.header), nodeId)]
      ensures block == Block(NextHeader(chainId, prev, Decimal.Print(StateRootHash(txs, hash))), txs,
          "PoS:proposed:" + nodeId)
      ensures block.header.chainId == chainId && block.header.prevHash == prev.header.stateRoot
      ensures block.header.height == (prev.header.height + 1) % 0x1_0000_0000_0000_0000
    {
      var root := ComputeStateRoot(txs, hash);
      block := Block(NextHeader(chainId, prev, root), txs, "PoS:proposed:" + nodeId);
      NextHeaderFollows(chainId, prev, root);
      CountSignature(BlockId(block.header), nodeId);
    }

    method OnRemoteBlock(block: Block)
      requires Valid()
      modifies this
      ensures Valid() && history == old(history) + [Vote(BlockId(block.header), "remote")]
    {
      CountSignature(BlockId(block.header), REMOTE);
    }

    method IsFinal(block: Block) returns (final: bool)
      requires Valid()
      ensures final <==> |Voters(history, BlockId(block.header))| >= PosQuorum(validators)
    {
      final := BlockId(block.header) in finalizedBlocks;
      QuorumsArePositive(validators);
      FinalExactly(history, PosQuorum(validators), BlockId(block.header));
    }
  }

  /** What the above means for an engine: under one node id, nothing is ever final at any other size. */
  lemma PbftNeverFinal(e: PBFT, node: string, b: Block)
    requires e.Valid() && VotedBy(e.history, node) && e.f != 0 && e.f != 0x8000_0000_0000_0000
    ensures BlockId(b.header) !in e.finalizedBlocks
  {
    QuorumsArePositive(e.f);
    FinalExactly(e.history, PbftQuorum(e.f), BlockId(b.header));
    TwoVoters(e.history, node, BlockId(b.header));
    NameCount(node);
    PbftQuorumFits(e.f, |{node, REMOTE}|);
  }

  lemma PosNeverFinal(e: PoS, node: string, b: Block)
    requires e.Valid() && VotedBy(e.history, node) && !FewValidators(e.validators, |{node, REMOTE}|)
    ensures BlockId(b.header) !in e.finalizedBlocks
  {
    QuorumsArePositive(e.validators);
    FinalExactly(e.history, PosQuorum(e.validators), BlockId(b.header));
    TwoVoters(e.history, node, BlockId(b.header));
    NameCount(node);
    PosQuorumFits(e.validators, |{node, REMOTE}|);
  }
}
