/** The node's 64-bit accounting against the Panel's and the true traffic. */
module Accounting {
  import opened Text
  import opened AddressPool
  import opened HelperModel
  import opened HelperPolicy
  import Traffic

  function Reading(c: Counters): Traffic.Bytes {
    Traffic.Bytes(c.rx as int, c.tx as int)
  }

  function AsBytes(samples: seq<Counters>): (r: seq<Traffic.Bytes>)
    ensures |r| == |samples| && forall i :: 0 <= i < |samples| ==> r[i] == Reading(samples[i])
  {
    if samples == [] then [] else AsBytes(samples[..|samples| - 1]) + [Reading(samples[|samples| - 1])]
  }

  /** The policy after a pass for each of these readings of its peer. */
  function AccountAll(p: Policy, samples: seq<Counters>): Policy {
    if samples == [] then p
    else Account(AccountAll(p, samples[..|samples| - 1]), map[p.publicKey := samples[|samples| - 1]])
  }

  lemma {:induction false} AccountedState(p: Policy, samples: seq<Counters>)
    requires p.initialized
    ensures var q := AccountAll(p, samples);
      && q.initialized && q.publicKey == p.publicKey
      && Traffic.LastFrom(Traffic.Bytes(p.lastRx as int, p.lastTx as int), AsBytes(samples)) ==
        Traffic.Bytes(q.lastRx as int, q.lastTx as int)
  {
    hide Add, HelperPolicy.Delta;
    if samples != [] {
      AccountedState(p, samples[..|samples| - 1]);
    }
  }

  lemma StepDelta(last: Counters, sample: Counters)
    ensures Traffic.NodeDelta(Reading(last), Reading(sample)) ==
      Traffic.Bytes(Delta(sample.rx, last.rx) as int, Delta(sample.tx, last.tx) as int)
  {
  }

  lemma AddExact(a: uint64, b: uint64)
    requires a as int + b as int < 0x1_0000_0000_0000_0000
    ensures Add(a, b) as int == a as int + b as int
  {
  }

  /** One reading adds its two deltas, if the sum stays below 2^64. */
  lemma AccountStep(q: Policy, sample: Counters)
    requires q.initialized
    requires q.used as int + Delta(sample.rx, q.lastRx) as int +
      Delta(sample.tx, q.lastTx) as int < 0x1_0000_0000_0000_0000
    ensures Account(q, map[q.publicKey := sample]).used as int ==
      q.used as int + Delta(sample.rx, q.lastRx) as int + Delta(sample.tx, q.lastTx) as int
  {
    hide Add, HelperPolicy.Delta;
    var rx, tx := Delta(sample.rx, q.lastRx), Delta(sample.tx, q.lastTx);
    AddExact(rx, tx);
    AddExact(q.used, Add(rx, tx));
  }

  /** The node's sum is exact as long as what it credits stays below 2^64. */
  lemma {:induction false} NodeSum(p: Policy, samples: seq<Counters>, base: Traffic.Bytes)
    requires p.initialized && base == Traffic.Bytes(p.lastRx as int, p.lastTx as int)
    requires forall k :: 0 <= k <= |samples| ==> BelowWrap(p, base, AsBytes(samples)[..k])
    ensures AccountAll(p, samples).used as int ==
      p.used as int + Traffic.NodeCredits(base, AsBytes(samples)).rx + Traffic.NodeCredits(base, AsBytes(samples)).tx
    decreases |samples|
  {
    hide Traffic.NodeDelta, Traffic.NodeCredits, Account, HelperPolicy.Delta;
    if samples == [] {
      NoCredits(base);
    } else {
      var k := |samples| - 1;
      var all, before, q := AsBytes(samples), samples[..k], AccountAll(p, samples[..k]);
      assert all[..k] == AsBytes(before);
      forall j | 0 <= j <= k ensures BelowWrap(p, base, AsBytes(before)[..j]) {
        assert AsBytes(before)[..j] == all[..j];
      }
      NodeSum(p, before, base);
      AccountedState(p, before);
      StepDelta(Counters(q.lastRx, q.lastTx), samples[k]);
      CreditsStep(base, all);
      assert BelowWrap(p, base, all[..|samples|]) && all[..|samples|] == all;
      AccountStep(q, samples[k]);
    }
  }

  ghost predicate BelowWrap(p: Policy, base: Traffic.Bytes, samples: seq<Traffic.Bytes>) {
    p.used as int + Traffic.NodeCredits(base, samples).rx +
      Traffic.NodeCredits(base, samples).tx < 0x1_0000_0000_0000_0000
  }

  lemma NoCredits(base: Traffic.Bytes)
    ensures Traffic.NodeCredits(base, []) == Traffic.NO_BYTES
  {
  }

  lemma {:induction false} DevicePrefix(base: Traffic.Bytes, samples: seq<Traffic.Bytes>, traffic: seq<Traffic.Bytes>,
    k: nat)
    requires Traffic.Device(base, samples, traffic) && k <= |samples|
    ensures Traffic.Device(base, samples[..k], traffic[..k])
    ensures Traffic.AtMost(Traffic.TrueTotal(traffic[..k]), Traffic.TrueTotal(traffic))
    decreases |samples| - k
  {
    hide Traffic.Moves;
    assert samples[..|samples|] == samples && traffic[..|samples|] == traffic;
    if k < |samples| {
      DevicePrefix(base, samples, traffic, k + 1);
      Traffic.DeviceBefore(base, samples[..k + 1], traffic[..k + 1]);
      TrafficGrows(base, samples[..k + 1], traffic[..k + 1]);
      assert samples[..k + 1][..k] == samples[..k] && traffic[..k + 1][..k] == traffic[..k];
    }
  }

  /**
   * As long as what was used and the true traffic stay below 2^64, the node's unsigned sum never wraps around: it is
   * what was used before and what the node credits, which is at most what the Panel credits for the same samples.
   */
  lemma NodeNeverWraps(p: Policy, samples: seq<Counters>, traffic: seq<Traffic.Bytes>)
    requires p.initialized && Traffic.Device(Traffic.Bytes(p.lastRx as int, p.lastTx as int), AsBytes(samples), traffic)
    requires p.used as int + Traffic.TrueTotal(traffic).rx + Traffic.TrueTotal(traffic).tx < 0x1_0000_0000_0000_0000
    ensures var base := Traffic.Bytes(p.lastRx as int, p.lastTx as int);
      var node, panel := Traffic.NodeCredits(base, AsBytes(samples)), Traffic.PanelCredits(base, AsBytes(samples));
      && AccountAll(p, samples).used as int == p.used as int + node.rx + node.tx
      && node.rx + node.tx <= panel.rx + panel.tx <= Traffic.TrueTotal(traffic).rx + Traffic.TrueTotal(traffic).tx
  {
    hide Traffic.Moves, Traffic.NodeCredits, Traffic.PanelCredits, Traffic.TrueTotal;
    var base, all := Traffic.Bytes(p.lastRx as int, p.lastTx as int), AsBytes(samples);
    forall k | 0 <= k <= |samples| ensures BelowWrap(p, base, all[..k]) {
      DevicePrefix(base, all, traffic, k);
      Traffic.AccountingBound(base, all[..k], traffic[..k]);
    }
    NodeSum(p, samples, base);
    Traffic.AccountingBound(base, all, traffic);
  }

  lemma TrafficGrows(base: Traffic.Bytes, samples: seq<Traffic.Bytes>, traffic: seq<Traffic.Bytes>)
    requires Traffic.Device(base, samples, traffic) && samples != []
    ensures var k := |traffic| - 1;
      Traffic.AtMost(Traffic.TrueTotal(traffic[..k]), Traffic.TrueTotal(traffic))
  {
    Traffic.DeviceBefore(base, samples, traffic);
  }

  lemma CreditsStep(base: Traffic.Bytes, samples: seq<Traffic.Bytes>)
    requires samples != []
    ensures var k := |samples| - 1;
      Traffic.NodeCredits(base, samples) ==
      Traffic.Plus(Traffic.NodeCredits(base, samples[..k]),
        Traffic.NodeDelta(Traffic.LastFrom(base, samples[..k]), samples[k]))
  {
  }
}
