/** The proof of work of consensus/PoW.cpp: sixteen hex digits of a 64-bit hash, leading zeros, the
    nonce search, and acceptance of blocks mined elsewhere. */
module PoW {
  import opened Basics
  import opened Decimal
  import opened Blocks
  import opened TextKey

  const LAST_NONCE: nat := 1_000_000

  /** What std::hex prints. */
  function Hex(n: nat): (s: string)
    ensures |s| > 0
  {
    if n < 16 then [HexChar(n)] else Hex(n / 16) + [HexChar(n % 16)]
  }

  function Zeros(n: nat): string {
    seq(n, _ => '0')
  }

  /** setw(width) with fill '0'. */
  function Padded(n: nat, width: nat): string {
    if |Hex(n)| >= width then Hex(n) else Zeros(width - |Hex(n)|) + Hex(n)
  }

  function Pow16(k: nat): (p: nat)
    ensures p > 0
  {
    if k == 0 then 1 else 16 * Pow16(k - 1)
  }

  /** Exactly width hex digits. */
  function Digits(n: nat, width: nat): (s: string)
    ensures |s| == width
  {
    if width == 0 then "" else Digits(n / 16, width - 1) + [HexChar(n % 16)]
  }

  lemma {:induction false} DigitsOfZero(width: nat)
    ensures Digits(0, width) == Zeros(width)
  {
    if width > 0 {
      DigitsOfZero(width - 1);
    }
  }

  lemma {:induction false} PaddedDigits(n: nat, width: nat)
    requires width > 0 && n < Pow16(width)
    ensures Padded(n, width) == Digits(n, width)
  {
    if n < 16 {
      DigitsOfZero(width - 1);
      assert Zeros(width - 1) + Hex(n) == Digits(n, width);
      assert Zeros(0) + Hex(n) == Hex(n);
    } else {
      assert width > 1;
      PaddedDigits(n / 16, width - 1);
      var shorter := Hex(n / 16);
      if |shorter| < width - 1 {
        assert Zeros(width - 1 - |shorter|) + Hex(n) == Zeros(width - 1 - |shorter|) + shorter + [HexChar(n % 16)];
      }
    }
  }

  predicate LeadingZeros(hash: string, zeros: nat) {
    zeros <= |hash| && forall i :: 0 <= i < zeros ==> hash[i] == '0'
  }

  /** hasLeadingZeros. */
  method HasLeadingZeros(hash: string, zeros: nat) returns (yes: bool)
    ensures yes <==> LeadingZeros(hash, zeros)
  {
    for i := 0 to zeros
      invariant LeadingZeros(hash, i)
    {
      if i >= |hash| || hash[i] != '0' {
        return false;
      }
    }
    return true;
  }

  lemma ZerosAppend(s: string, c: char)
    ensures LeadingZeros(s + [c], |s| + 1) <==> LeadingZeros(s, |s|) && c == '0'
  {
    assert forall i :: 0 <= i < |s| ==> (s + [c])[i] == s[i];
    assert (s + [c])[|s|] == c;
  }

  lemma {:induction false} DigitsZeros(n: nat, width: nat, d: nat)
    requires d <= width && n < Pow16(width)
    ensures LeadingZeros(Digits(n, width), d) <==> n < Pow16(width - d)
  {
    if width > 0 {
      var rest := Digits(n / 16, width - 1);
      if d == width {
        DigitsZeros(n / 16, width - 1, d - 1);
        ZerosAppend(rest, HexChar(n % 16));
        assert Pow16(0) == 1 && Pow16(1) == 16;
      } else {
        DigitsZeros(n / 16, width - 1, d);
        assert forall i :: 0 <= i < d ==> Digits(n, width)[i] == rest[i];
        assert Pow16(width - d) == 16 * Pow16(width - 1 - d);
      }
    }
  }

  lemma SixteenDigits()
    ensures Pow16(16) == 0x1_0000_0000_0000_0000
  {
    assert Pow16(4) == 0x1_0000;
    assert Pow16(8) == 0x1_0000_0000 by {
      assert Pow16(6) == 0x100_0000;
    }
    assert Pow16(12) == 0x1_0000_0000_0000 by {
      assert Pow16(10) == 0x100_0000_0000;
    }
    assert Pow16(14) == 0x100_0000_0000_0000;
  }

  /** The printed hash of a 64-bit value has d leading zeros exactly when the value is below 16^(16 - d);
      more than sixteen it never has. */
  lemma LeadingZerosExactly(h: Uint64, d: nat)
    ensures LeadingZeros(Padded(h, 16), d) <==> d <= 16 && h < Pow16(16 - d)
  {
    SixteenDigits();
    PaddedDigits(h, 16);
    if d <= 16 {
      DigitsZeros(h, 16, d);
    }
  }

  // ---------------------------------------------------------------- blocks

  /** The id mined blocks are filed under. */
  function MinedId(h: Header, nonce: nat): string {
    BlockId(h) + ":" + Print(nonce)
  }

  /** As a printed nonce has no colon, a mined id tells the nonce and the block id. */
  lemma MinedIdExactly(g: Header, m: nat, h: Header, n: nat)
    ensures MinedId(g, m) == MinedId(h, n) <==> m == n && BlockId(g) == BlockId(h)
  {
    if MinedId(g, m) == MinedId(h, n) {
      NoColonInDecimal(m);
      NoColonInDecimal(n);
      ColonFreeSecond(BlockId(g), Print(m), BlockId(h), Print(n));
      PrintInjective(m, n);
    }
  }

  function HashInput(h: Header, nonce: nat): string {
    h.chainId + Print(h.height) + h.prevHash + h.stateRoot + Print(nonce)
  }

  /** computeBlockHash, for an arbitrary 64-bit hash. */
  function BlockHash(hash: string -> Uint64, h: Header, nonce: nat): string {
    Padded(hash(HashInput(h, nonce)) , 16)
  }

  predicate Passes(hash: string -> Uint64, h: Header, nonce: nat, difficulty: nat) {
    LeadingZeros(BlockHash(hash, h, nonce), difficulty)
  }

  /** nonce is the first that passes. */
  ghost predicate LeastPassing(hash: string -> Uint64, h: Header, nonce: nat, difficulty: nat) {
    Passes(hash, h, nonce, difficulty) && forall k: nat :: k < nonce ==> !Passes(hash, h, k, difficulty)
  }

  ghost predicate NonePasses(hash: string -> Uint64, h: Header, difficulty: nat) {
    forall k: nat :: k <= 1_000_000 ==> !Passes(hash, h, k, difficulty)
  }

  /** What onRemoteBlock does to the set of mined ids. */
  function Accept(mined: set<string>, hash: string -> Uint64, difficulty: nat, b: Block): (set<string>, ErrorCode) {
    match Stoull(b.extra)
    case None => (mined, InvalidState)
    case Some(nonce) =>
      if Passes(hash, b.header, nonce, difficulty)
      then (mined + {MinedId(b.header, nonce)}, Ok)
      else (mined, ConsensusFault)
  }

  predicate Final(mined: set<string>, b: Block) {
    match Stoull(b.extra)
    case None => false
    case Some(nonce) => MinedId(b.header, nonce) in mined
  }

  /** b is a block that engine of this difficulty could have mined with this nonce. */
  predicate MinedWith(hash: string -> Uint64, difficulty: nat, b: Block, nonce: nat) {
    nonce <= LAST_NONCE && b.extra == Print(nonce) && Passes(hash, b.header, nonce, difficulty)
  }

  lemma FewerZeros(hash: string, more: nat, fewer: nat)
    requires LeadingZeros(hash, more) && fewer <= more
    ensures LeadingZeros(hash, fewer)
  {
  }

  /** A mined block is accepted, and final from then on, at every engine whose difficulty is no higher. */
  lemma MinedIsPortable(hash: string -> Uint64, difficulty: nat, lower: nat, b: Block, nonce: nat, mined: set<string>)
    requires MinedWith(hash, difficulty, b, nonce) && lower <= difficulty
    ensures Accept(mined, hash, lower, b).1 == Ok && Final(Accept(mined, hash, lower, b).0, b)
  {
    StoullPrint(nonce);
    FewerZeros(BlockHash(hash, b.header, nonce), difficulty, lower);
  }

  /** A remote block is accepted exactly when its nonce can be read and hashes below the target. */
  lemma AcceptExactly(mined: set<string>, hash: string -> Uint64, difficulty: nat, b: Block)
    ensures Accept(mined, hash, difficulty, b).1 == Ok <==>
            && Stoull(b.extra).Some? && difficulty <= 16
            && var h, nonce := b.header, Stoull(b.extra).value;
               hash(h.chainId + Print(h.height) + h.prevHash + h.stateRoot + Print(nonce)) < Pow16(16 - difficulty)
  {
    if Stoull(b.extra).Some? {
      var h := hash(HashInput(b.header, Stoull(b.extra).value));
      SixteenDigits();
      LeadingZerosExactly(h, difficulty);
    }
  }

  // ---------------------------------------------------------------- what finality says of work

  /** A header and the nonce it was accepted with. */
  datatype Work = Work(header: Header, nonce: Uint64)

  ghost predicate AllPass(hash: string -> Uint64, history: seq<Work>, difficulty: nat) {
    forall w :: w in history ==> Passes(hash, w.header, w.nonce, difficulty)
  }

  ghost predicate Recorded(history: seq<Work>, id: string) {
    exists w :: w in history && MinedId(w.header, w.nonce) == id
  }

  /** Work was accepted for this nonce and for a block of this id. */
  ghost predicate AcceptedFor(history: seq<Work>, h: Header, nonce: nat) {
    exists w :: w in history && w.nonce == nonce && BlockId(w.header) == BlockId(h)
  }

  lemma RecordedExactly(history: seq<Work>, h: Header, nonce: nat)
    ensures Recorded(history, MinedId(h, nonce)) <==> AcceptedFor(history, h, nonce)
  {
    forall w | w in history
      ensures MinedId(w.header, w.nonce) == MinedId(h, nonce) <==> w.nonce == nonce && BlockId(w.header) == BlockId(h)
    {
      MinedIdExactly(w.header, w.nonce, h, nonce);
    }
  }

  /** Some recorded work was done on the very text that is hashed for this header and nonce. */
  ghost predicate Worked(history: seq<Work>, h: Header, nonce: nat) {
    exists w :: w in history && HashInput(w.header, w.nonce) == HashInput(h, nonce)
  }

  lemma RecordedAppend(history: seq<Work>, w: Work, id: string)
    ensures Recorded(history + [w], id) <==> Recorded(history, id) || id == MinedId(w.header, w.nonce)
  {
    assert (history + [w])[|history|] == w;
    assert forall x :: x in history + [w] <==> x in history || x == w;
  }

  function Inputs(history: seq<Work>): set<string> {
    set w | w in history :: HashInput(w.header, w.nonce)
  }

  /** A hash under which recorded work, and nothing else, has been done. */
  function StingyHash(history: seq<Work>): string -> Uint64 {
    var inputs := Inputs(history);
    (s: string) => if s in inputs then 0 else MAX64
  }

  lemma ZeroPasses(difficulty: nat)
    requires difficulty <= 16
    ensures LeadingZeros(Padded(0, 16), difficulty)
  {
    LeadingZerosExactly(0, difficulty);
  }

  lemma GreatestFails(difficulty: nat)
    requires difficulty > 0
    ensures !LeadingZeros(Padded(MAX64, 16), difficulty)
  {
    LeadingZerosExactly(MAX64, difficulty);
    if difficulty <= 16 {
      FewDigits(16 - difficulty);
    }
  }

  lemma FewDigits(k: nat)
    requires k <= 15
    ensures Pow16(k) < MAX64
  {
    PowerMonotone(k, 15);
    FifteenDigits();
  }

  lemma FifteenDigits()
    ensures Pow16(15) < MAX64
  {
    SixteenDigits();
    assert Pow16(16) == 16 * Pow16(15);
  }

  lemma StingyPasses(history: seq<Work>, h: Header, nonce: nat, difficulty: nat)
    requires 0 < difficulty <= 16
    ensures Passes(StingyHash(history), h, nonce, difficulty) <==> Worked(history, h, nonce)
  {
    ZeroPasses(difficulty);
    GreatestFails(difficulty);
    assert HashInput(h, nonce) in Inputs(history) <==> Worked(history, h, nonce);
  }

  lemma {:induction false} PowerMonotone(j: nat, k: nat)
    requires j <= k
    ensures Pow16(j) <= Pow16(k)
  {
    if j < k {
      PowerMonotone(j, k - 1);
    }
  }

  /** Whatever 64-bit function the hash is, if the whole history passes then so does this. */
  ghost predicate Vouched(history: seq<Work>, h: Header, nonce: nat, difficulty: nat) {
    forall hash: string -> Uint64 :: AllPass(hash, history, difficulty) ==> Passes(hash, h, nonce, difficulty)
  }

  lemma WorkedIsVouched(history: seq<Work>, h: Header, nonce: nat, difficulty: nat)
    requires Worked(history, h, nonce)
    ensures Vouched(history, h, nonce, difficulty)
  {
    var w :| w in history && HashInput(w.header, w.nonce) == HashInput(h, nonce);
    forall hash: string -> Uint64 | AllPass(hash, history, difficulty) ensures Passes(hash, h, nonce, difficulty) {
      assert Passes(hash, w.header, w.nonce, difficulty);
    }
  }

  lemma VouchedIsWorked(history: seq<Work>, h: Header, nonce: nat, difficulty: nat)
    requires 0 < difficulty <= 16 && Vouched(history, h, nonce, difficulty)
    ensures Worked(history, h, nonce)
  {
    forall w | w in history ensures Passes(StingyHash(history), w.header, w.nonce, difficulty) {
      StingyPasses(history, w.header, w.nonce, difficulty);
    }
    assert AllPass(StingyHash(history), history, difficulty);
    StingyPasses(history, h, nonce, difficulty);
  }

  /** At a difficulty a hash can meet, an engine's history vouches for the work of a header and nonce
      exactly when it holds the same hashed text.  An id in common, which is all finality asks for, is
      not enough, as ids leave out the state root.  (Difficulty 0 asks for nothing, and beyond 16 there
      is no work to be recorded.) */
  lemma VouchedExactly(history: seq<Work>, h: Header, nonce: nat, difficulty: nat)
    ensures Vouched(history, h, nonce, difficulty) <==>
            difficulty == 0 || (if difficulty <= 16 then Worked(history, h, nonce) else history != [])
  {
    if difficulty > 16 {
      forall hash: string -> Uint64, g: Header, n: nat ensures !Passes(hash, g, n, difficulty) {
        LeadingZerosExactly(hash(HashInput(g, n)), difficulty);
      }
      if history == [] {
        assert AllPass(StingyHash([]), history, difficulty);
      } else {
        assert history[0] in history;
      }
    } else if difficulty > 0 {
      if Worked(history, h, nonce) {
        WorkedIsVouched(history, h, nonce, difficulty);
      } else if Vouched(history, h, nonce, difficulty) {
        VouchedIsWorked(history, h, nonce, difficulty);
      }
    }
  }

  /** The state root is part of the hashed text, */
  lemma HashInputHasRoot(g: Header, h: Header, nonce: nat)
    requires g == h.(stateRoot := g.stateRoot) && HashInput(g, nonce) == HashInput(h, nonce)
    ensures g == h
  {
    var before, after := h.chainId + Print(h.height) + h.prevHash, Print(nonce);
    assert HashInput(g, nonce) == before + g.stateRoot + after;
    assert HashInput(h, nonce) == before + h.stateRoot + after;
    assert |g.stateRoot| == |h.stateRoot|;
    assert (before + g.stateRoot + after)[|before|..|before| + |g.stateRoot|] == g.stateRoot;
    assert (before + h.stateRoot + after)[|before|..|before| + |h.stateRoot|] == h.stateRoot;
  }

  /** so the work done for one state root does not vouch for another. */
  lemma OtherRootIsNotVouched(h: Header, nonce: Uint64, stateRoot: string, difficulty: nat)
    requires 0 < difficulty <= 16 && stateRoot != h.stateRoot
    ensures !Vouched([Work(h, nonce)], h.(stateRoot := stateRoot), nonce, difficulty)
  {
    var other := h.(stateRoot := stateRoot);
    VouchedExactly([Work(h, nonce)], other, nonce, difficulty);
    if Worked([Work(h, nonce)], other, nonce) {
      HashInputHasRoot(other, h, nonce);
    }
  }

  /** Once a block is accepted, the same block with any other state root is final too, worked for or not. */
  lemma AnyStateRootIsFinal(mined: set<string>, hash: string -> Uint64, difficulty: nat, b: Block, stateRoot: string)
    requires Accept(mined, hash, difficulty, b).1 == Ok
    ensures Final(Accept(mined, hash, difficulty, b).0, b.(header := b.header.(stateRoot := stateRoot)))
  {
    var other := b.header.(stateRoot := stateRoot);
    assert MinedId(other, Stoull(b.extra).value) == MinedId(b.header, Stoull(b.extra).value);
  }

  class PoWEngine {
    const difficulty: nat
    const hash: string -> Uint64
    var minedBlocks: set<string>
    ghost var history: seq<Work>

    /** The ids on file are those of recorded work, and all of it passed. */
    ghost predicate Valid()
      reads this
    {
      && AllPass(hash, history, difficulty)
      && forall id :: id in minedBlocks <==> Recorded(history, id)
    }

    constructor (difficulty: nat, hash: string -> Uint64)
      ensures Valid() && minedBlocks == {} && history == [] && this.difficulty == difficulty && this.hash == hash
    {
      this.difficulty, this.hash, minedBlocks, history := difficulty, hash, {}, [];
    }

    method RecordWork(header: Header, nonce: Uint64)
      requires Valid() && Passes(hash, header, nonce, difficulty)
      modifies this
      ensures Valid() && history == old(history) + [Work(header, nonce)]
      ensures minedBlocks == old(minedBlocks) + {MinedId(header, nonce)}
    {
      forall id
        ensures Recorded(history + [Work(header, nonce)], id) <==> id in minedBlocks || id == MinedId(header, nonce)
      {
        RecordedAppend(history, Work(header, nonce), id);
      }
      minedBlocks := minedBlocks + {MinedId(header, nonce)};
      history := history + [Work(header, nonce)];
    }

    /** The nonce search: the least nonce that passes, or None when all up to the last one fail. */
    method Search(header: Header) returns (found: Option<nat>)
      ensures match found
              case Some(nonce) => nonce <= 1_000_000 && LeastPassing(hash, header, nonce, difficulty)
              case None => NonePasses(hash, header, difficulty)
    {
      var nonce := 0;
      while true
        invariant nonce <= LAST_NONCE
        invariant forall k: nat :: k < nonce ==> !Passes(hash, header, k, difficulty)
        decreases LAST_NONCE - nonce
      {
        var passes := HasLeadingZeros(BlockHash(hash, header, nonce), difficulty);
        if passes {
          return Some(nonce);
        }
        nonce := nonce + 1;
        if nonce > LAST_NONCE {
          return None;
        }
      }
    }

    method Propose(chainId: string, txs: seq<Transaction>, prev: Block) returns (r: Option<Block>)
      requires Valid()
      modifies this
      ensures Valid()
      ensures match r
              case Some(b) =>
                && b.txs == txs && b.header == NextHeader(chainId, prev, Print(StateRootHash(txs, hash)))
                && (exists nonce ::
                      && MinedWith(hash, difficulty, b, nonce) && LeastPassing(hash, b.header, nonce, difficulty)
                      && minedBlocks == old(minedBlocks) + {MinedId(b.header, nonce)})
                && b.header.chainId == chainId && b.header.prevHash == prev.header.stateRoot
                && b.header.height == (prev.header.height + 1) % 0x1_0000_0000_0000_0000
                && Stoull(b.extra).Some? && history == old(history) + [Work(b.header, Stoull(b.extra).value)]
                && Final(minedBlocks, b)
              case None =>
                && minedBlocks == old(minedBlocks) && history == old(history)
                && NonePasses(hash, NextHeader(chainId, prev, Print(StateRootHash(txs, hash))), difficulty)
    {
      var root := ComputeStateRoot(txs, hash);
      var header := NextHeader(chainId, prev, root);
      NextHeaderFollows(chainId, prev, root);
      var found := Search(header);
      if found == None {
        return None;
      }
      var b := Block(header, txs, Print(found.value));
      RecordWork(header, found.value);
      StoullPrint(found.value);
      assert MinedWith(hash, difficulty, b, found.value);
      return Some(b);
    }

    method OnRemoteBlock(b: Block) returns (code: ErrorCode)
      requires Valid()
      modifies this
      ensures Valid() && (minedBlocks, code) == Accept(old(minedBlocks), hash, difficulty, b)
      ensures code == InvalidState <==> Stoull(b.extra) == None
      ensures code == Ok <==> Stoull(b.extra).Some? && Passes(hash, b.header, Stoull(b.extra).value, difficulty)
      ensures code == Ok || code == InvalidState || code == ConsensusFault
      ensures history == if code == Ok then old(history) + [Work(b.header, Stoull(b.extra).value)] else old(history)
    {
      var nonce := Stoull(b.extra);
      if nonce == None {
        return InvalidState;
      }
      var passes := HasLeadingZeros(BlockHash(hash, b.header, nonce.value), difficulty);
      if !passes {
        return ConsensusFault;
      }
      RecordWork(b.header, nonce.value);
      return Ok;
    }

    method IsFinal(b: Block) returns (final: bool)
      requires Valid()
      ensures final == Final(minedBlocks, b)
      ensures final <==> Stoull(b.extra).Some? && AcceptedFor(history, b.header, Stoull(b.extra).value)
    {
      var nonce := Stoull(b.extra);
      if nonce == None {
        return false;
      }
      RecordedExactly(history, b.header, nonce.value);
      return MinedId(b.header, nonce.value) in minedBlocks;
    }
  }
}
