/** Bucketed dispatch of node rules (`bus.rs`): the same reports as calling every rule on every node.

    A rule's hooks are what they report: `reports[slot][k]` is what rule `slot` pushes on node `k`. */
module Bus {

  datatype Subscription = EveryType | Types(indices: set<nat>)

  /** The rules' subscriptions, the nodes' types and the reports, consistently sized. */
  datatype Lint<Report> = Lint(rules: seq<Subscription>, nodeTypes: seq<nat>, typeCount: nat,
                               reports: seq<seq<seq<Report>>>) {
    predicate Valid() {
      && |reports| == |rules|
      && (forall slot :: 0 <= slot < |rules| ==> |reports[slot]| == |nodeTypes|)
      && (forall k :: 0 <= k < |nodeTypes| ==> nodeTypes[k] < typeCount)
    }

    predicate Subscribed(slot: nat, t: nat)
      requires slot < |rules|
    {
      rules[slot].EveryType? || t in rules[slot].indices
    }

    /** What rule `slot` reports on the nodes of `lo..hi` it subscribed to, in table order. */
    function Selected(slot: nat, lo: nat, hi: nat): seq<Report>
      requires Valid() && slot < |rules| && lo <= hi <= |nodeTypes|
      decreases hi
    {
      if lo == hi then []
      else Selected(slot, lo, hi - 1) + (if Subscribed(slot, nodeTypes[hi - 1]) then reports[slot][hi - 1] else [])
    }

    /** What rule `slot` reports on the first `n` nodes. */
    function Everything(slot: nat, n: nat): seq<Report>
      requires Valid() && slot < |rules| && n <= |nodeTypes|
    {
      if n == 0 then [] else Everything(slot, n - 1) + reports[slot][n - 1]
    }

    /** No rule reports anything on a type it did not declare. */
    predicate KeepsToDeclared()
      requires Valid()
    {
      forall slot, k :: 0 <= slot < |rules| && 0 <= k < |nodeTypes| && !Subscribed(slot, nodeTypes[k]) ==>
        reports[slot][k] == []
    }
  }

  // ----- the buckets -----

  /** The bucket a rule goes into: that of a type, or of the rules for every type. */
  predicate InBucket(s: Subscription, t: nat, every: bool) {
    if every then s.EveryType? else s.Types? && t in s.indices
  }

  /** `bucket` lists, in order and once each, the first `n` rules that go there. */
  predicate Lists(rules: seq<Subscription>, bucket: seq<nat>, n: nat, t: nat, every: bool)
    requires n <= |rules|
  {
    && (forall i :: 0 <= i < |bucket| ==> bucket[i] < n && InBucket(rules[bucket[i]], t, every))
    && (forall i, j :: 0 <= i < j < |bucket| ==> bucket[i] < bucket[j])
    && (forall slot: nat :: slot < n && InBucket(rules[slot], t, every) ==> slot in bucket)
  }

  class RuleBuckets {
    const byType: array<seq<nat>>
    var anyType: seq<nat>

    constructor (typeCount: nat)
      ensures byType.Length == typeCount && fresh(byType)
    {
      byType := new seq<nat>[typeCount];
      anyType := [];
    }

    /** Buckets are kept between runs; a run starts from empty ones. */
    method Clear()
      modifies this, byType
      ensures anyType == [] && forall t :: 0 <= t < byType.Length ==> byType[t] == []
    {
      for t := 0 to byType.Length
        invariant forall u :: 0 <= u < t ==> byType[u] == []
      {
        byType[t] := [];
      }
      anyType := [];
    }

    method Fill(rules: seq<Subscription>)
      modifies this, byType
      ensures forall t :: 0 <= t < byType.Length ==> Lists(rules, byType[t], |rules|, t, false)
      ensures Lists(rules, anyType, |rules|, 0, true)
    {
      Clear();
      for slot := 0 to |rules|
        invariant forall t :: 0 <= t < byType.Length ==> Lists(rules, byType[t], slot, t, false)
        invariant Lists(rules, anyType, slot, 0, true)
      {
        match rules[slot] {
          case Types(indices) =>
            for t := 0 to byType.Length
              invariant Lists(rules, anyType, slot, 0, true)
              invariant forall u :: 0 <= u < t ==> Lists(rules, byType[u], slot + 1, u, false)
              invariant forall u :: t <= u < byType.Length ==> Lists(rules, byType[u], slot, u, false)
            {
              if t in indices {
                ListsOne(rules, byType[t], slot, t, false);
                byType[t] := byType[t] + [slot];
              }
            }
          case EveryType =>
            ListsOne(rules, anyType, slot, 0, true);
            anyType := anyType + [slot];
        }
      }
    }
  }

  lemma ListsOne(rules: seq<Subscription>, bucket: seq<nat>, n: nat, t: nat, every: bool)
    requires n < |rules| && Lists(rules, bucket, n, t, every) && InBucket(rules[n], t, every)
    ensures Lists(rules, bucket + [n], n + 1, t, every)
  {
  }

  // ----- dispatch -----

  /** Append what the rules of a bucket report on node `k`, each to its own slot. */
  method Dispatch<Report>(lint: Lint<Report>, bucket: seq<nat>, k: nat, out: array<seq<Report>>)
    requires lint.Valid() && out.Length == |lint.rules| && k < |lint.nodeTypes|
    requires forall i :: 0 <= i < |bucket| ==> bucket[i] < |lint.rules|
    requires forall i, j :: 0 <= i < j < |bucket| ==> bucket[i] < bucket[j]
    modifies out
    ensures forall slot: nat :: slot < |lint.rules| ==>
              out[slot] == old(out[slot]) + (if slot in bucket then lint.reports[slot][k] else [])
  {
    for i := 0 to |bucket|
      invariant forall slot: nat :: slot < |lint.rules| ==>
                  out[slot] == old(out[slot]) + (if slot in bucket[..i] then lint.reports[slot][k] else [])
    {
      assert bucket[i] !in bucket[..i];
      assert bucket[..i + 1] == bucket[..i] + [bucket[i]];
      out[bucket[i]] := out[bucket[i]] + lint.reports[bucket[i]][k];
    }
    assert bucket[..|bucket|] == bucket;
  }

  method RunChunk<Report>(lint: Lint<Report>, buckets: RuleBuckets, lo: nat, hi: nat) returns (out: array<seq<Report>>)
    requires lint.Valid() && lo <= hi <= |lint.nodeTypes| && buckets.byType.Length == lint.typeCount
    modifies buckets, buckets.byType
    ensures fresh(out) && out.Length == |lint.rules|
    ensures forall slot :: 0 <= slot < |lint.rules| ==> out[slot] == lint.Selected(slot, lo, hi)
  {
    out := new seq<Report>[|lint.rules|](_ => []);
    buckets.Fill(lint.rules);
    for k := lo to hi
      invariant forall t :: 0 <= t < buckets.byType.Length ==>
                  Lists(lint.rules, buckets.byType[t], |lint.rules|, t, false)
      invariant Lists(lint.rules, buckets.anyType, |lint.rules|, 0, true)
      invariant forall slot :: 0 <= slot < |lint.rules| ==> out[slot] == lint.Selected(slot, lo, k)
    {
      var t := lint.nodeTypes[k];
      var some := buckets.byType[t];
      assert Lists(lint.rules, some, |lint.rules|, t, false);
      Dispatch(lint, some, k, out);
      Dispatch(lint, buckets.anyType, k, out);
      forall slot: nat | slot < |lint.rules|
        ensures out[slot] == lint.Selected(slot, lo, k + 1)
      {
        BucketOf(lint, some, buckets.anyType, slot, t);
      }
    }
  }

  lemma BucketOf<Report>(lint: Lint<Report>, some: seq<nat>, every: seq<nat>, slot: nat, t: nat)
    requires slot < |lint.rules|
    requires Lists(lint.rules, some, |lint.rules|, t, false) && Lists(lint.rules, every, |lint.rules|, 0, true)
    ensures lint.Subscribed(slot, t) <==> slot in some || slot in every
    ensures !(slot in some && slot in every)
  {
  }

  const MIN_PARALLEL_NODES: nat := 4096

  lemma {:induction false} SelectedSplits<Report>(lint: Lint<Report>, slot: nat, lo: nat, mid: nat, hi: nat)
    requires lint.Valid() && slot < |lint.rules| && lo <= mid <= hi <= |lint.nodeTypes|
    ensures lint.Selected(slot, lo, hi) == lint.Selected(slot, lo, mid) + lint.Selected(slot, mid, hi)
    decreases hi
  {
    if mid < hi {
      SelectedSplits(lint, slot, lo, mid, hi - 1);
    }
  }

  /** Whole tables: at once, or in chunks whose results are joined in order. */
  method Run<Report>(lint: Lint<Report>, chunkLength: nat) returns (out: array<seq<Report>>)
    requires lint.Valid() && chunkLength > 0
    ensures fresh(out) && out.Length == |lint.rules|
    ensures forall slot :: 0 <= slot < |lint.rules| ==> out[slot] == lint.Selected(slot, 0, |lint.nodeTypes|)
  {
    var n := |lint.nodeTypes|;
    var buckets := new RuleBuckets(lint.typeCount);
    if n < MIN_PARALLEL_NODES {
      out := RunChunk(lint, buckets, 0, n);
      return;
    }
    out := new seq<Report>[|lint.rules|](_ => []);
    var lo := 0;
    while lo < n
      invariant lo <= n
      invariant forall slot :: 0 <= slot < |lint.rules| ==> out[slot] == lint.Selected(slot, 0, lo)
      decreases n - lo
    {
      var hi := if lo + chunkLength < n then lo + chunkLength else n;
      var chunk := RunChunk(lint, buckets, lo, hi);
      for slot := 0 to |lint.rules|
        invariant forall s :: 0 <= s < slot ==> out[s] == lint.Selected(s, 0, hi)
        invariant forall s :: slot <= s < |lint.rules| ==> out[s] == lint.Selected(s, 0, lo)
        invariant forall s :: 0 <= s < |lint.rules| ==> chunk[s] == lint.Selected(s, lo, hi)
      {
        SelectedSplits(lint, slot, 0, lo, hi);
        out[slot] := out[slot] + chunk[slot];
      }
      lo := hi;
    }
  }

  /** The reference: every rule sees every node. */
  method RunEveryNode<Report>(lint: Lint<Report>) returns (out: array<seq<Report>>)
    requires lint.Valid()
    ensures fresh(out) && out.Length == |lint.rules|
    ensures forall slot :: 0 <= slot < |lint.rules| ==> out[slot] == lint.Everything(slot, |lint.nodeTypes|)
  {
    out := new seq<Report>[|lint.rules|](_ => []);
    for k := 0 to |lint.nodeTypes|
      invariant forall slot :: 0 <= slot < |lint.rules| ==> out[slot] == lint.Everything(slot, k)
    {
      for slot := 0 to |lint.rules|
        invariant forall s :: 0 <= s < slot ==> out[s] == lint.Everything(s, k + 1)
        invariant forall s :: slot <= s < |lint.rules| ==> out[s] == lint.Everything(s, k)
      {
        out[slot] := out[slot] + lint.reports[slot][k];
      }
    }
  }

  lemma {:induction false} DeclaredIsEverything<Report>(lint: Lint<Report>, slot: nat, n: nat)
    requires lint.Valid() && lint.KeepsToDeclared() && slot < |lint.rules| && n <= |lint.nodeTypes|
    ensures lint.Selected(slot, 0, n) == lint.Everything(slot, n)
  {
    if n > 0 {
      DeclaredIsEverything(lint, slot, n - 1);
      assert lint.Everything(slot, n - 1) + [] == lint.Everything(slot, n - 1);
    }
  }

  /** If rules keep to the types they declare, bucketed and chunked dispatch gives what the reference
      gives, rule by rule and in the same order, whatever the chunk length. */
  method AgreesWithReference<Report(==)>(lint: Lint<Report>, chunkLength: nat) returns (agrees: bool)
    requires lint.Valid() && chunkLength > 0 && lint.KeepsToDeclared()
    ensures agrees
  {
    var fast := Run(lint, chunkLength);
    var reference := RunEveryNode(lint);
    forall slot: nat | slot < |lint.rules|
      ensures fast[slot] == reference[slot]
    {
      DeclaredIsEverything(lint, slot, |lint.nodeTypes|);
    }
    agrees := fast[..] == reference[..];
  }
}
