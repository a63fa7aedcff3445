/** Blocks as the consensus engines see them, the text ids they are filed under, and the dummy state
    root. */
module Blocks {
  import opened Basics
  import opened Bits
  import opened TextKey
  import Decimal

  datatype Transaction = Transaction(from: string, to: string, payload: string)

  datatype Header = Header(chainId: string, height: Uint64, prevHash: string, stateRoot: string)

  datatype Block = Block(header: Header, txs: seq<Transaction>, extra: string)

  /** `chainId:height:prevHash`, the id PBFT and PoS file votes under. */
  function BlockId(h: Header): string {
    h.chainId + ":" + Decimal.Print(h.height) + ":" + h.prevHash
  }

  lemma IdIsNestedKey(h: Header)
    ensures BlockId(h) == MakeKey(h.chainId, MakeKey(Decimal.Print(h.height), h.prevHash))
    ensures BlockId(h) == MakeKey(MakeKey(h.chainId, Decimal.Print(h.height)), h.prevHash)
  {
  }

  // ---------------------------------------------------------------- when ids collide

  /** The id cannot tell these two apart, and should. */
  predicate SameBlock(g: Header, h: Header) {
    g.chainId == h.chainId && g.height == h.height && g.prevHash == h.prevHash
  }

  /** A colon-delimited segment of s, between positions i and j, that is a printed 64-bit number; i == -1
      and j == |s| stand for the ends of s. */
  predicate NumberSegment(s: string, i: int, j: int) {
    && -1 <= i < j <= |s|
    && (i == -1 || s[i] == ':') && (j == |s| || s[j] == ':')
    && Decimal.Plain(s[i + 1..j])
  }

  /** A segment of the chain id other than its first, or of the previous hash other than its last, could
      pass for the height. */
  ghost predicate Ambiguous(h: Header) {
    || (exists i, j :: 0 <= i && NumberSegment(h.chainId, i, j))
    || (exists i, j :: j < |h.prevHash| && NumberSegment(h.prevHash, i, j))
  }

  ghost predicate Aliased(h: Header) {
    exists g :: BlockId(g) == BlockId(h) && !SameBlock(g, h)
  }

  lemma Reread(h: Header, chainId: string, height: Uint64, prevHash: string)
    requires BlockId(h) == MakeKey(chainId, MakeKey(Decimal.Print(height), prevHash))
    requires |chainId| != |h.chainId|
    ensures Aliased(h)
  {
    var g := Header(chainId, height, prevHash, "");
    IdIsNestedKey(g);
    assert BlockId(g) == BlockId(h) && !SameBlock(g, h);
  }

  /** Past the colon at i, the id goes on with the rest of the chain id. */
  lemma ChainReread(h: Header, i: nat)
    requires i < |h.chainId| && h.chainId[i] == ':'
    ensures BlockId(h) ==
            MakeKey(h.chainId[..i], MakeKey(h.chainId[i + 1..], MakeKey(Decimal.Print(h.height), h.prevHash)))
  {
    IdIsNestedKey(h);
    SplitKey(h.chainId, i);
    KeyAssociative(h.chainId[..i], h.chainId[i + 1..], MakeKey(Decimal.Print(h.height), h.prevHash));
  }

  /** A text that begins with a number up to its end or a colon, once more with something behind it. */
  lemma NumberFirst(tail: string, n: nat, k: nat, rest: string) returns (after: string)
    requires k <= |tail| && tail[..k] == Decimal.Print(n) && (k < |tail| ==> tail[k] == ':')
    ensures MakeKey(tail, rest) == MakeKey(Decimal.Print(n), after)
  {
    if k == |tail| {
      assert tail == tail[..k];
      after := rest;
    } else {
      SplitKey(tail, k);
      after := MakeKey(tail[k + 1..], rest);
      KeyAssociative(tail[..k], tail[k + 1..], rest);
    }
  }

  lemma AmbiguousChain(h: Header, i: int, j: int)
    requires 0 <= i && NumberSegment(h.chainId, i, j)
    ensures Aliased(h)
  {
    var tail := h.chainId[i + 1..];
    var n := Decimal.PlainPrinted(h.chainId[i + 1..j]);
    ChainReread(h, i);
    assert tail[..j - i - 1] == h.chainId[i + 1..j];
    var after := NumberFirst(tail, n, j - i - 1, MakeKey(Decimal.Print(h.height), h.prevHash));
    Reread(h, h.chainId[..i], n, after);
  }

  lemma AmbiguousPrev(h: Header, i: int, j: int)
    requires j < |h.prevHash| && NumberSegment(h.prevHash, i, j)
    ensures Aliased(h)
  {
    var tail := h.prevHash[i + 1..];
    var n := Decimal.PlainPrinted(h.prevHash[i + 1..j]);
    var before := MakeKey(h.chainId, Decimal.Print(h.height));
    IdIsNestedKey(h);
    SplitKey(tail, j - i - 1);
    assert tail[..j - i - 1] == Decimal.Print(n);
    if i == -1 {
      assert tail == h.prevHash;
      Reread(h, before, n, tail[j - i..]);
    } else {
      SplitKey(h.prevHash, i);
      KeyAssociative(before, h.prevHash[..i], tail);
      Reread(h, MakeKey(before, h.prevHash[..i]), n, tail[j - i..]);
    }
  }

  lemma NoColonInDecimal(n: nat)
    ensures ':' !in Decimal.Print(n)
  {
    forall i | 0 <= i < |Decimal.Print(n)| ensures Decimal.Print(n)[i] != ':' {
      assert Decimal.IsDigit(Decimal.Print(n)[i]);
    }
  }

  function HeightAt(h: Header): nat {
    |h.chainId| + 1
  }

  function HeightEnd(h: Header): nat {
    |h.chainId| + 1 + |Decimal.Print(h.height)|
  }

  /** id reads as h: a chain id, a colon, a height with no colon in it, a colon, and a previous hash. */
  ghost predicate Reads(id: string, h: Header) {
    var p, q := HeightAt(h) - 1, HeightEnd(h);
    && p < q < |id| && id[p] == ':' && id[q] == ':'
    && id[..p] == h.chainId && id[p + 1..q] == Decimal.Print(h.height) && id[q + 1..] == h.prevHash
    && forall k :: p < k < q ==> id[k] != ':'
  }

  lemma IdReads(h: Header)
    ensures Reads(BlockId(h), h)
  {
    var id := BlockId(h);
    var p, q := HeightAt(h) - 1, HeightEnd(h);
    NoColonInDecimal(h.height);
    assert id[p + 1..q] == Decimal.Print(h.height);
    forall k | p < k < q ensures id[k] != ':' {
      assert id[k] == Decimal.Print(h.height)[k - p - 1];
    }
  }

  /** Readings with the height at the same place are of the same block. */
  lemma SamePlace(id: string, g: Header, h: Header)
    requires Reads(id, g) && Reads(id, h) && |g.chainId| == |h.chainId|
    ensures SameBlock(g, h)
  {
    assert HeightEnd(g) == HeightEnd(h);
    Decimal.PrintInjective(g.height, h.height);
  }

  lemma SliceOfSlice(id: string, lo: nat, hi: nat, a: nat, b: nat)
    requires lo <= hi <= |id| && a <= b <= hi - lo
    ensures id[lo..hi][a..b] == id[lo + a..lo + b]
  {
    var s := id[lo..hi];
    forall k | 0 <= k < b - a ensures s[a..b][k] == id[lo + a..lo + b][k] {
      assert s[a + k] == id[lo + a + k];
    }
  }

  /** A number between two colons of a text is a number segment of any part it lies in. */
  lemma SegmentOf(id: string, lo: nat, hi: nat, p: nat, q: nat)
    requires lo <= p + 1 && p < q <= hi <= |id| && q < |id|
    requires id[p] == ':' && id[q] == ':' && Decimal.Plain(id[p + 1..q])
    ensures NumberSegment(id[lo..hi], p - lo, q - lo)
  {
    SliceOfSlice(id, lo, hi, p - lo + 1, q - lo);
    assert lo + (p - lo + 1) == p + 1 && lo + (q - lo) == q;
  }

  /** Heights hold no colon, so those of two readings do not overlap. */
  lemma EarlierPlace(id: string, g: Header, h: Header)
    requires Reads(id, g) && Reads(id, h) && |g.chainId| < |h.chainId|
    ensures Ambiguous(h)
  {
    HeightSegment(id, g, 0, |h.chainId|);
    assert id[0..|h.chainId|] == h.chainId;
    assert NumberSegment(h.chainId, |g.chainId|, HeightEnd(g));
  }

  lemma NoOverlap(id: string, g: Header, h: Header)
    requires Reads(id, g) && Reads(id, h) && |g.chainId| > |h.chainId|
    ensures HeightEnd(h) <= |g.chainId| < HeightEnd(g) < |id|
  {
    assert id[|g.chainId|] == ':';
  }

  /** The height read as g's is a number segment of the text. */
  lemma HeightSegment(id: string, g: Header, lo: nat, hi: nat)
    requires Reads(id, g) && lo <= |g.chainId| + 1 && HeightEnd(g) <= hi <= |id|
    ensures NumberSegment(id[lo..hi], |g.chainId| - lo, HeightEnd(g) - lo)
  {
    Decimal.PrintIsPlain(g.height);
    SegmentOf(id, lo, hi, |g.chainId|, HeightEnd(g));
  }

  lemma LaterPlace(id: string, g: Header, h: Header)
    requires Reads(id, g) && Reads(id, h) && |g.chainId| > |h.chainId|
    ensures Ambiguous(h)
  {
    var lo := HeightEnd(h) + 1;
    NoOverlap(id, g, h);
    HeightSegment(id, g, lo, |id|);
    assert id[lo..|id|] == h.prevHash;
    var i, j := |g.chainId| - lo, HeightEnd(g) - lo;
    assert j < |h.prevHash| && NumberSegment(h.prevHash, i, j);
  }

  /** Another chain, height or previous hash goes by the same id exactly when a segment of the chain id
      other than its first, or of the previous hash other than its last, reads as a height. */
  lemma BlockIdAliasExactly(h: Header)
    ensures Aliased(h) <==> Ambiguous(h)
  {
    if g :| BlockId(g) == BlockId(h) && !SameBlock(g, h) {
      IdReads(g);
      IdReads(h);
      if |g.chainId| == |h.chainId| {
        SamePlace(BlockId(h), g, h);
      } else if |g.chainId| < |h.chainId| {
        EarlierPlace(BlockId(h), g, h);
      } else {
        LaterPlace(BlockId(h), g, h);
      }
    } else if i, j :| 0 <= i && NumberSegment(h.chainId, i, j) {
      AmbiguousChain(h, i, j);
    } else if i, j :| j < |h.prevHash| && NumberSegment(h.prevHash, i, j) {
      AmbiguousPrev(h, i, j);
    }
  }

  /** Between colon-free chain ids the block id tells chain, height and previous hash apart. */
  lemma BlockIdInjective(g: Header, h: Header)
    requires BlockId(g) == BlockId(h) && ':' !in g.chainId && ':' !in h.chainId
    ensures SameBlock(g, h)
  {
    IdIsNestedKey(g);
    IdIsNestedKey(h);
    ColonFreeFirst(g.chainId, MakeKey(Decimal.Print(g.height), g.prevHash),
                   h.chainId, MakeKey(Decimal.Print(h.height), h.prevHash));
    IdReads(g);
    IdReads(h);
    SamePlace(BlockId(h), g, h);
  }

  /** A witness: two chains share an id. */
  lemma BlockIdCollides()
    ensures BlockId(Header("a:1", 2, "x", "")) == BlockId(Header("a", 1, "2:x", ""))
    ensures !SameBlock(Header("a:1", 2, "x", ""), Header("a", 1, "2:x", ""))
  {
    assert Decimal.Print(1) == "1" && Decimal.Print(2) == "2";
  }

  function TransactionHash(tx: Transaction, hash: string -> Uint64): nat {
    hash(tx.from + tx.to + tx.payload)
  }

  /** Working through the transactions in their order, from start. */
  function Accumulate<T>(txs: seq<Transaction>, value: Transaction -> T, op: (T, T) -> T, start: T): T {
    if txs == [] then start
    else op(Accumulate(txs[..|txs| - 1], value, op, start), value(txs[|txs| - 1]))
  }

  function StateRootHash(txs: seq<Transaction>, hash: string -> Uint64): nat {
    Accumulate(txs, (tx: Transaction) => TransactionHash(tx, hash), Xor, 0)
  }

  lemma AccumulateLast<T>(txs: seq<Transaction>, tx: Transaction, value: Transaction -> T, op: (T, T) -> T, start: T)
    ensures Accumulate(txs + [tx], value, op, start) == op(Accumulate(txs, value, op, start), value(tx))
  {
    assert (txs + [tx])[..|txs|] == txs;
  }

  /** Any transaction can be taken last. */
  lemma {:induction false} AccumulateWithout<T(!new)>(before: seq<Transaction>, tx: Transaction,
      after: seq<Transaction>, value: Transaction -> T, op: (T, T) -> T, start: T)
    requires Swaps(op)
    ensures Accumulate(before + [tx] + after, value, op, start) ==
            op(Accumulate(before + after, value, op, start), value(tx))
    decreases |after|
  {
    if after == [] {
      assert before + [tx] + after == before + [tx] && before + after == before;
      AccumulateLast(before, tx, value, op, start);
    } else {
      var most, last := after[..|after| - 1], after[|after| - 1];
      assert before + [tx] + after == before + [tx] + most + [last] && before + after == before + most + [last];
      AccumulateWithout(before, tx, most, value, op, start);
      AccumulateLast(before + [tx] + most, last, value, op, start);
      AccumulateLast(before + most, last, value, op, start);
    }
  }

  lemma TakenOut<T>(xs: seq<T>, x: T) returns (before: seq<T>, after: seq<T>)
    requires x in xs
    ensures xs == before + [x] + after && multiset(before + after) == multiset(xs) - multiset{x}
  {
    var i :| 0 <= i < |xs| && xs[i] == x;
    before, after := xs[..i], xs[i + 1..];
    assert xs == before + [x] + after;
    assert multiset(before + [x] + after) == multiset(before + after) + multiset{x};
  }

  lemma {:induction false} AccumulateIgnoresOrder<T(!new)>(txs: seq<Transaction>, other: seq<Transaction>,
      value: Transaction -> T, op: (T, T) -> T, start: T)
    requires multiset(txs) == multiset(other) && Swaps(op)
    ensures Accumulate(txs, value, op, start) == Accumulate(other, value, op, start)
    decreases |txs|
  {
    assert |multiset(txs)| == |multiset(other)|;
    if txs != [] {
      var most, tx := txs[..|txs| - 1], txs[|txs| - 1];
      assert txs == most + [tx];
      assert multiset(most) == multiset(txs) - multiset{tx};
      assert tx in multiset(other);
      var before, after := TakenOut(other, tx);
      AccumulateIgnoresOrder(most, before + after, value, op, start);
      AccumulateWithout(before, tx, after, value, op, start);
    }
  }

  /** The state root does not depend on the order of the transactions. */
  lemma RootIgnoresOrder(txs: seq<Transaction>, other: seq<Transaction>, hash: string -> Uint64)
    requires multiset(txs) == multiset(other)
    ensures StateRootHash(txs, hash) == StateRootHash(other, hash)
  {
    XorSwaps();
    AccumulateIgnoresOrder(txs, other, (tx: Transaction) => TransactionHash(tx, hash), Xor, 0);
  }

  lemma RootLast(txs: seq<Transaction>, tx: Transaction, hash: string -> Uint64)
    ensures StateRootHash(txs + [tx], hash) == Xor(StateRootHash(txs, hash), TransactionHash(tx, hash))
  {
    AccumulateLast(txs, tx, (t: Transaction) => TransactionHash(t, hash), Xor, 0);
  }

  lemma RootPrefix(txs: seq<Transaction>, i: nat, hash: string -> Uint64)
    requires i < |txs|
    ensures StateRootHash(txs[..i + 1], hash) == Xor(StateRootHash(txs[..i], hash), TransactionHash(txs[i], hash))
  {
    assert txs[..i + 1] == txs[..i] + [txs[i]];
    RootLast(txs[..i], txs[i], hash);
  }

  lemma WordBound()
    ensures Power(64) == 0x1_0000_0000_0000_0000
  {
    assert Power(8) == 0x100;
    assert Power(16) == 0x1_0000;
    assert Power(24) == 0x100_0000;
    assert Power(32) == 0x1_0000_0000;
    assert Power(40) == 0x100_0000_0000;
    assert Power(48) == 0x1_0000_0000_0000;
    assert Power(56) == 0x100_0000_0000_0000;
  }

  lemma XorOfWords(a: nat, b: nat)
    requires a <= MAX64 && b <= MAX64
    ensures Xor(a, b) <= MAX64
  {
    WordBound();
    XorFits(a, b, Power(64), 64);
  }

  /** The root is a 64-bit number like the hashes. */
  lemma {:induction false} RootFits(txs: seq<Transaction>, hash: string -> Uint64)
    ensures StateRootHash(txs, hash) <= MAX64
  {
    if txs != [] {
      var most, tx := txs[..|txs| - 1], txs[|txs| - 1];
      RootFits(most, hash);
      assert txs == most + [tx];
      RootLast(most, tx, hash);
      XorOfWords(StateRootHash(most, hash), TransactionHash(tx, hash));
    }
  }

  /** A transaction included twice leaves no trace in it. */
  lemma RootForgetsPairs(txs: seq<Transaction>, tx: Transaction, hash: string -> Uint64)
    ensures StateRootHash(txs + [tx, tx], hash) == StateRootHash(txs, hash)
  {
    assert txs + [tx, tx] == txs + [tx] + [tx];
    RootLast(txs + [tx], tx, hash);
    RootLast(txs, tx, hash);
    XorTwice(StateRootHash(txs, hash), TransactionHash(tx, hash));
  }

  /** No transactions have root 0, and one transaction's root is the hash of its three texts, one after the
      other. */
  lemma RootOfOne(tx: Transaction, hash: string -> Uint64)
    ensures StateRootHash([], hash) == 0
    ensures StateRootHash([tx], hash) == hash(tx.from + tx.to + tx.payload)
  {
    assert [] + [tx] == [tx];
    RootLast([], tx, hash);
    XorZero(TransactionHash(tx, hash));
  }

  /** computeStateRoot. */
  method ComputeStateRoot(txs: seq<Transaction>, hash: string -> Uint64) returns (root: string)
    ensures root == Decimal.Print(StateRootHash(txs, hash))
  {
    var h: nat := 0;
    for i := 0 to |txs|
      invariant h == StateRootHash(txs[..i], hash)
    {
      RootPrefix(txs, i, hash);
      h := Xor(h, TransactionHash(txs[i], hash));
    }
    assert txs[..|txs|] == txs;
    root := Decimal.Print(h);
  }

  /** The header every engine proposes on top of prev; heights wrap at 2^64. */
  function NextHeader(chainId: string, prev: Block, stateRoot: string): Header {
    Header(chainId, Increment(prev.header.height), prev.header.stateRoot, stateRoot)
  }

  // ---------------------------------------------------------------- chains of proposals

  /** What a proposal on top of prev gets, whichever engine makes it. */
  predicate Follows(h: Header, prev: Header, chainId: string) {
    h.chainId == chainId && h.height == (prev.height + 1) % 0x1_0000_0000_0000_0000 && h.prevHash == prev.stateRoot
  }

  lemma NextHeaderFollows(chainId: string, prev: Block, stateRoot: string)
    ensures Follows(NextHeader(chainId, prev, stateRoot), prev.header, chainId)
    ensures NextHeader(chainId, prev, stateRoot).stateRoot == stateRoot
  {
  }

  /** Headers proposed one on top of the other, after the first. */
  ghost predicate Lineage(headers: seq<Header>, chainId: string) {
    forall i :: 0 < i < |headers| ==> Follows(headers[i], headers[i - 1], chainId)
  }

  /** The i-th block after the first is i higher, modulo 2^64. */
  lemma {:induction false} LineageHeight(headers: seq<Header>, chainId: string, i: nat)
    requires Lineage(headers, chainId) && i < |headers|
    ensures headers[i].height == (headers[0].height + i) % 0x1_0000_0000_0000_0000
  {
    if i > 0 {
      LineageHeight(headers, chainId, i - 1);
      assert Follows(headers[i], headers[i - 1], chainId);
    }
  }

  /** So, until heights repeat, the proposals of one chain have different ids. */
  lemma LineageIdsDiffer(headers: seq<Header>, chainId: string, i: nat, j: nat)
    requires Lineage(headers, chainId) && ':' !in chainId
    requires 0 < i < j < |headers| && j - i < 0x1_0000_0000_0000_0000
    ensures BlockId(headers[i]) != BlockId(headers[j])
  {
    LineageHeight(headers, chainId, i);
    LineageHeight(headers, chainId, j);
    assert Follows(headers[i], headers[i - 1], chainId) && Follows(headers[j], headers[j - 1], chainId);
    if BlockId(headers[i]) == BlockId(headers[j]) {
      BlockIdInjective(headers[i], headers[j]);
    }
  }
}
