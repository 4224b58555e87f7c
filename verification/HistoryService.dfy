/** Choosing how much history a compaction keeps (src/core/history_service.cpp). */
module HistoryService {
  import opened Wrappers
  import opened RevisionRecords
  import opened GraphValidity
  import opened GraphLemmas
  import opened RevisionGraph
  import opened Compaction
  import opened BuilderRuns

  /** The number of the text-carrying record to cut at, going by counts alone. */
  function CompactionCutoff(count: nat, retain: nat): nat {
    if count == 0 || retain >= count - 1 then 0 else count - retain - 1
  }

  /** The number of the first text-carrying record before n whose text is available, or m if there is none. */
  ghost function FirstAvailable(rs: seq<Record>, n: nat): (k: nat)
    requires n <= |rs|
    ensures k <= |Carriers(rs, n)|
    ensures k < |Carriers(rs, n)| ==> Available(rs, Carriers(rs, n)[k], DEFAULT_LIMITS)
    ensures forall i | 0 <= i < k :: !Available(rs, Carriers(rs, n)[i], DEFAULT_LIMITS)
  {
    if n == 0 then 0
    else
      var k := FirstAvailable(rs, n - 1);
      if k < |Carriers(rs, n - 1)| || !Carries(rs[n - 1]) || Available(rs, n - 1, DEFAULT_LIMITS) then k else k + 1
  }

  function Max(a: nat, b: nat): nat { if a < b then b else a }
  function Min(a: nat, b: nat): nat { if a < b then a else b }

  /** The cutoff compact_graph passes on. */
  ghost function ChosenCutoff(rs: seq<Record>, retain: nat): nat {
    Max(CompactionCutoff(|Carriers(rs, |rs|)|, retain), FirstAvailable(rs, |rs|))
  }

  /** The content head's text is always available, so there is a first available text. */
  lemma SomeAvailable(hash: Hash, g: Graph)
    requires Decodable(hash, g, DEFAULT_LIMITS)
    ensures var ks := Carriers(g.records, |g.records|);
            |ks| > 0 && Available(g.records, ks[|ks| - 1], DEFAULT_LIMITS)
            && FirstAvailable(g.records, |g.records|) < |ks|
  {
    hide GoodRecord, Structured, CompactionsOk, GoodSlots, GoodLease, Available;
    var rs := g.records;
    var n := |rs|;
    LineShowsHash(rs, n, DEFAULT_LIMITS);
    LastCarrier(rs, n);
    LastTextAvailable(rs, n);
  }

  lemma {:induction false} LastCarrier(rs: seq<Record>, n: nat)
    requires n <= |rs| && LastContent(rs, n) >= 0
    ensures var ks := Carriers(rs, n); |ks| > 0 && ks[|ks| - 1] == LastContent(rs, n)
  {
    if !Carries(rs[n - 1]) { LastCarrier(rs, n - 1); }
  }

  lemma {:induction false} LastTextAvailable(rs: seq<Record>, n: nat)
    requires n <= |rs| && LastContent(rs, n) >= 0 && LineAfter(rs, n, DEFAULT_LIMITS).Known?
    ensures Available(rs, LastContent(rs, n), DEFAULT_LIMITS)
  {
    if !Carries(rs[n - 1]) { LastTextAvailable(rs, n - 1); }
  }

  /**
   * Retention: on a graph the builders made, the chosen cutoff is readable, and exactly
   * min(retain, deltas after the first available text) deltas stay.
   */
  lemma RetainsExactly(hash: Hash, g: Graph, retain: nat)
    requires Built(hash, g)
    ensures var rs := g.records;
            var ks := Carriers(rs, |rs|);
            var k := ChosenCutoff(rs, retain);
            && k < |ks| && Available(rs, ks[k], DEFAULT_LIMITS)
            && |ks| - k - 1 == Min(retain, |ks| - FirstAvailable(rs, |rs|) - 1)
  {
    hide Decodable, Available;
    SomeAvailable(hash, g);
    var rs := g.records;
    var ks := Carriers(rs, |rs|);
    var f, k := FirstAvailable(rs, |rs|), ChosenCutoff(rs, retain);
    if f < k { assert Available(rs, ks[f], DEFAULT_LIMITS) && ks[f] < ks[k]; }
  }

  /** On any graph that decodes, a retaining compaction is refused exactly when the chosen text is pruned. */
  lemma RefusedOnlyForGaps(hash: Hash, g: Graph, retain: nat, s: CompactRequest)
    requires Decodable(hash, g, DEFAULT_LIMITS)
    requires !HasProvisional(g) && s.timestamp <= MAX_TIME
    requires s.clientName != "" && s.clientEmail != "" && s.device != "" && MayCompact(g.slots, s.actor)
    ensures var ks := Carriers(g.records, |g.records|);
            var k := ChosenCutoff(g.records, retain);
            && k < |ks|
            && (CompactAllowed(g, k, s) <==> g.records[ks[k]].storage != Pruned)
  {
    hide GoodRecord, Structured, CompactionsOk, GoodSlots, GoodLease, AppliesTo, MayCompact;
    SomeAvailable(hash, g);
    var c := Carriers(g.records, |g.records|)[ChosenCutoff(g.records, retain)];
    NeverBroken(g.records, c + 1, DEFAULT_LIMITS);
    assert LineAfter(g.records, c + 1, DEFAULT_LIMITS) == Advance(LineAfter(g.records, c, DEFAULT_LIMITS), g.records[c], DEFAULT_LIMITS);
  }
}
