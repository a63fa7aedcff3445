/** What an ordered channel makes of a stream of arrivals: the greedy acceptor takes as much as any
    acceptor could, and redundant in-order streams never hold each other up. */
module Arrivals {
  import opened Basics
  import opened Channel

  function AcceptAll(c: Channel, arrivals: seq<Packet>): Channel {
    if arrivals == [] then c
    else AcceptPacket(AcceptAll(c, arrivals[..|arrivals| - 1]), arrivals[|arrivals| - 1]).0
  }

  function Numbers(arrivals: seq<Packet>): seq<nat> {
    seq(|arrivals|, i requires 0 <= i < |arrivals| => arrivals[i].sequence as nat)
  }

  /** How far a receiver gets that only ever takes the next number. */
  function Progress(numbers: seq<nat>): nat {
    if numbers == [] then 0
    else
      var before := Progress(numbers[..|numbers| - 1]);
      if numbers[|numbers| - 1] == before + 1 then before + 1 else before
  }

  /** The numbers 1 .. k occur in this order, at the positions in at. */
  ghost predicate Climbs(at: seq<nat>, k: nat, numbers: seq<nat>) {
    && |at| == k
    && (forall i :: 0 <= i < k ==> at[i] < |numbers| && numbers[at[i]] == i + 1)
    && (forall i, j :: 0 <= i < j < k ==> at[i] < at[j])
  }

  /** 1 .. k is a subsequence of the numbers. */
  ghost predicate CountsTo(k: nat, numbers: seq<nat>) {
    exists at :: Climbs(at, k, numbers)
  }

  lemma {:induction false} ProgressClimbs(numbers: seq<nat>) returns (at: seq<nat>)
    ensures Climbs(at, Progress(numbers), numbers)
  {
    if numbers == [] {
      at := [];
    } else {
      var last := |numbers| - 1;
      at := ProgressClimbs(numbers[..last]);
      if Progress(numbers) > |at| {
        at := at + [last];
      }
    }
  }

  lemma {:induction false} ProgressIsGreatest(at: seq<nat>, k: nat, numbers: seq<nat>)
    requires Climbs(at, k, numbers)
    ensures k <= Progress(numbers)
    decreases |numbers|
  {
    if k > 0 {
      var last := |numbers| - 1;
      assert at[k - 1] <= last && numbers[at[k - 1]] == k;
      if at[k - 1] < last {
        ProgressIsGreatest(at, k, numbers[..last]);
      } else {
        ProgressIsGreatest(at[..k - 1], k - 1, numbers[..last]);
      }
    }
  }

  /** The receiver gets to k exactly when 1 .. k is a subsequence of the arrivals. */
  lemma ProgressExactly(numbers: seq<nat>, k: nat)
    ensures k <= Progress(numbers) <==> CountsTo(k, numbers)
  {
    if k <= Progress(numbers) {
      var at := ProgressClimbs(numbers);
      assert Climbs(at[..k], k, numbers);
    } else if at :| Climbs(at, k, numbers) {
      ProgressIsGreatest(at, k, numbers);
    }
  }

  /** A fresh open channel accepts, of any arrivals, exactly as many packets as the greatest k for
      which 1 .. k is a subsequence of the numbers that arrive. */
  lemma {:induction false} ChannelIsGreedy(c: Channel, arrivals: seq<Packet>)
    requires c.state == Open && c.nextSeq == 1 && c.log == []
    requires Progress(Numbers(arrivals)) < MAX64
    ensures var after := AcceptAll(c, arrivals);
            && after.state == Open
            && |after.log| == Progress(Numbers(arrivals))
            && after.nextSeq == |after.log| + 1
            && (forall i :: 0 <= i < |after.log| ==>
                  after.log[i].Accepted? && after.log[i].packet.sequence == i + 1 && after.log[i].packet in arrivals)
  {
    if arrivals != [] {
      var before := arrivals[..|arrivals| - 1];
      assert Numbers(arrivals)[..|arrivals| - 1] == Numbers(before);
      ChannelIsGreedy(c, before);
    }
  }

  // ---------------------------------------------------------------- redundant relayers

  /** The numbers that arrive when, at each moment i, relayer who[i] delivers the next packet of its
      own in-order copy of 1, 2, 3, ... */
  function Interleave(who: seq<nat>): seq<nat> {
    if who == [] then []
    else Interleave(who[..|who| - 1]) + [multiset(who)[who[|who| - 1]]]
  }

  lemma LastCounted(who: seq<nat>)
    requires who != []
    ensures multiset(who) == multiset(who[..|who| - 1]) + multiset{who[|who| - 1]}
  {
    assert who == who[..|who| - 1] + [who[|who| - 1]];
  }

  /** The channel is always exactly where the most advanced stream is. */
  lemma {:induction false} RedundantStreams(who: seq<nat>)
    ensures forall r :: multiset(who)[r] <= Progress(Interleave(who))
    ensures who == [] || exists r :: r in who && multiset(who)[r] == Progress(Interleave(who))
    ensures who == [] ==> Progress(Interleave(who)) == 0
  {
    if who != [] {
      var before := who[..|who| - 1];
      var r := who[|who| - 1];
      RedundantStreams(before);
      LastCounted(who);
      assert Interleave(who)[..|Interleave(who)| - 1] == Interleave(before);
      if Progress(Interleave(who)) > Progress(Interleave(before)) || before == [] {
        assert multiset(who)[r] == Progress(Interleave(who));
      } else {
        var s :| s in before && multiset(before)[s] == Progress(Interleave(before));
        assert s in who;
        assert multiset(before)[s] <= multiset(who)[s];
        assert multiset(who)[s] == Progress(Interleave(who));
      }
    }
  }

  /** So, of redundant relayers that each deliver 1, 2, 3, ... in order, the channel keeps up with the
      fastest: its counter stands right after the greatest progress any of them has made. */
  lemma ChannelFollowsFastest(c: Channel, arrivals: seq<Packet>, who: seq<nat>)
    requires c.state == Open && c.nextSeq == 1 && c.log == []
    requires Numbers(arrivals) == Interleave(who) && forall r :: multiset(who)[r] < MAX64
    ensures var after := AcceptAll(c, arrivals);
            && (forall r :: multiset(who)[r] <= after.nextSeq - 1)
            && (who == [] || exists r :: r in who && multiset(who)[r] == after.nextSeq - 1)
            && |after.log| == after.nextSeq - 1
            && (forall i :: 0 <= i < |after.log| ==> after.log[i].Accepted? && after.log[i].packet.sequence == i + 1)
  {
    RedundantStreams(who);
    ChannelIsGreedy(c, arrivals);
  }
}
