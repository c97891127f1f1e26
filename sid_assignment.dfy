/** Sid assignment of the tiingo bundle: `asset_to_sid_map` in
    zipline/data/bundles/tiingo_api.py. */
module TiingoSids {
  import opened Wrappers

  type Symbol = string

  /** The asset finder of an existing bundle, reduced to what the assigner asks
      of it: `lookup_symbol(symbol, today)` as the map of the symbols it knows
      (a miss raises SymbolNotFound or SidsNotFound), and `get_max_sid()`. */
  datatype AssetFinder = AssetFinder(registry: map<Symbol, int>, maxSid: int)

  /** What an asset finder guarantees: no registered sid exceeds `get_max_sid()`. */
  predicate FinderValid(f: AssetFinder) {
    forall s :: s in f.registry ==> f.registry[s] <= f.maxSid
  }

  /** The number of symbols among the first i of s that the finder does not know. */
  function Misses(registry: map<Symbol, int>, s: seq<Symbol>, i: nat): nat
    requires i <= |s|
  {
    if i == 0 then 0
    else Misses(registry, s, i - 1) + (if s[i - 1] in registry then 0 else 1)
  }

  /** The value of `next_free_sid` once the first i symbols are processed. */
  function FreshSid(f: AssetFinder, symbols: seq<Symbol>, i: nat): int
    requires i <= |symbols|
  {
    f.maxSid + 1 + Misses(f.registry, symbols, i)
  }

  /** No later position among the first k holds the symbol at position i:
      the dict entry written at i is the one that survives. */
  predicate LastBefore(s: seq<Symbol>, i: nat, k: nat)
    requires i < k <= |s|
  {
    forall j :: i < j < k ==> s[j] != s[i]
  }

  /** One more symbol extends the prefix by that symbol. */
  lemma PrefixStep(s: seq<Symbol>, k: nat)
    requires k < |s|
    ensures s[..k + 1] == s[..k] + [s[k]]
    ensures s[..k + 1][..k] == s[..k]
    ensures forall x :: x in s[..k + 1] <==> x in s[..k] || x == s[k]
  {
    assert s[..k + 1] == s[..k] + [s[k]];
  }

  /** Misses only grow, and a miss at position i makes every later count larger. */
  lemma {:induction false} MissesGrow(registry: map<Symbol, int>, s: seq<Symbol>, i: nat, j: nat)
    requires i < j <= |s| && s[i] !in registry
    ensures Misses(registry, s, i) < Misses(registry, s, j)
  {
    if j - 1 > i {
      MissesGrow(registry, s, i, j - 1);
    }
  }

  /** Fresh sids handed out at two different misses differ, and all lie above
      `get_max_sid()`, hence above every sid the finder already knows. */
  lemma FreshSidsDistinct(f: AssetFinder, symbols: seq<Symbol>, i: nat, j: nat)
    requires i < j < |symbols| && symbols[i] !in f.registry
    requires FinderValid(f)
    ensures FreshSid(f, symbols, i) < FreshSid(f, symbols, j)
    ensures forall s :: s in f.registry ==> f.registry[s] < FreshSid(f, symbols, i)
  {
    MissesGrow(f.registry, symbols, i, j);
  }

  /** The sid the finder branch gives the symbol at position i. */
  function Expected(f: AssetFinder, symbols: seq<Symbol>, i: nat): int
    requires i < |symbols|
  {
    if symbols[i] in f.registry then f.registry[symbols[i]] else FreshSid(f, symbols, i)
  }

  /** The keys of the dict are the first k symbols. */
  ghost predicate KeysSeen(symbols: seq<Symbol>, k: nat, sids: map<Symbol, int>)
    requires k <= |symbols|
  {
    && (forall s :: s in sids <==> s in symbols[..k])
    && (forall i :: 0 <= i < k ==> symbols[i] in sids)
  }

  /** Every symbol among the first k holds the sid of its last occurrence. */
  ghost predicate LastWins(f: AssetFinder, symbols: seq<Symbol>, k: nat, sids: map<Symbol, int>)
    requires k <= |symbols| && KeysSeen(symbols, k, sids)
  {
    forall i {:trigger LastBefore(symbols, i, k)} :: 0 <= i < k && LastBefore(symbols, i, k) ==>
      sids[symbols[i]] == Expected(f, symbols, i)
  }

  /** Fresh sids lie strictly between `get_max_sid()` and `next_free_sid`, and no two coincide. */
  ghost predicate FreshBelow(f: AssetFinder, sids: map<Symbol, int>, next: int) {
    && (forall s :: s in sids && s !in f.registry ==> f.maxSid < sids[s] < next)
    && (forall s, t :: s in sids && t in sids && s != t && s !in f.registry && t !in f.registry ==>
          sids[s] != sids[t])
  }

  lemma KeysStep(symbols: seq<Symbol>, k: nat, sids: map<Symbol, int>, v: int)
    requires k < |symbols| && KeysSeen(symbols, k, sids)
    ensures KeysSeen(symbols, k + 1, sids[symbols[k] := v])
  {
    PrefixStep(symbols, k);
  }

  lemma LastWinsStep(f: AssetFinder, symbols: seq<Symbol>, k: nat, sids: map<Symbol, int>)
    requires k < |symbols| && KeysSeen(symbols, k, sids) && LastWins(f, symbols, k, sids)
    ensures KeysSeen(symbols, k + 1, sids[symbols[k] := Expected(f, symbols, k)])
    ensures LastWins(f, symbols, k + 1, sids[symbols[k] := Expected(f, symbols, k)])
  {
    KeysStep(symbols, k, sids, Expected(f, symbols, k));
    var next := sids[symbols[k] := Expected(f, symbols, k)];
    forall i | 0 <= i < k + 1 && LastBefore(symbols, i, k + 1)
      ensures next[symbols[i]] == Expected(f, symbols, i)
    {
      if i < k {
        assert symbols[k] != symbols[i];
        assert LastBefore(symbols, i, k);
      }
    }
  }

  lemma FreshStep(f: AssetFinder, sids: map<Symbol, int>, next: int, s: Symbol, v: int)
    requires FreshBelow(f, sids, next) && f.maxSid < next
    requires s !in f.registry ==> v == next
    ensures FreshBelow(f, sids[s := v], if s in f.registry then next else next + 1)
  {
  }

  lemma FreshSidStep(f: AssetFinder, symbols: seq<Symbol>, k: nat)
    requires k < |symbols|
    ensures FreshSid(f, symbols, k + 1) == FreshSid(f, symbols, k) + (if symbols[k] in f.registry then 0 else 1)
  {
  }

  /** The finder branch of `asset_to_sid_map`: a symbol the finder knows keeps
      its sid, every miss takes `next_free_sid`, which then moves on. */
  method LookupSids(f: AssetFinder, symbols: seq<Symbol>) returns (sids: map<Symbol, int>)
    ensures forall s :: s in sids <==> s in symbols
    ensures forall i {:trigger LastBefore(symbols, i, |symbols|)} :: 0 <= i < |symbols| && LastBefore(symbols, i, |symbols|) ==>
      sids[symbols[i]] == if symbols[i] in f.registry then f.registry[symbols[i]] else FreshSid(f, symbols, i)
    ensures forall s :: s in sids && s !in f.registry ==> sids[s] > f.maxSid
    ensures forall s, t :: s in sids && t in sids && s != t && s !in f.registry && t !in f.registry ==>
      sids[s] != sids[t]
  {
    sids := map[];
    var nextFreeSid := f.maxSid + 1;
    var k := 0;
    while k < |symbols|
      invariant 0 <= k <= |symbols|
      invariant nextFreeSid == FreshSid(f, symbols, k)
      invariant KeysSeen(symbols, k, sids)
      invariant LastWins(f, symbols, k, sids)
      invariant FreshBelow(f, sids, nextFreeSid)
    {
      var symbol := symbols[k];
      var sid := if symbol in f.registry then f.registry[symbol] else nextFreeSid;
      assert sid == Expected(f, symbols, k);
      LastWinsStep(f, symbols, k, sids);
      FreshStep(f, sids, nextFreeSid, symbol, sid);
      FreshSidStep(f, symbols, k);
      sids := sids[symbol := sid];
      if symbol !in f.registry {
        nextFreeSid := nextFreeSid + 1;
      }
      k := k + 1;
    }
    assert symbols[..k] == symbols;
  }

  /** The branch without a finder: the i-th symbol gets sid i. */
  method EnumerateSids(symbols: seq<Symbol>) returns (sids: map<Symbol, int>)
    ensures forall s :: s in sids <==> s in symbols
    ensures forall i {:trigger LastBefore(symbols, i, |symbols|)} :: 0 <= i < |symbols| && LastBefore(symbols, i, |symbols|) ==>
      sids[symbols[i]] == i
    ensures forall s, t :: s in sids && t in sids && s != t ==> sids[s] != sids[t]
  {
    sids := map[];
    for k := 0 to |symbols|
      invariant forall s :: s in sids <==> s in symbols[..k]
      invariant forall i :: 0 <= i < k ==> symbols[i] in sids
      invariant forall i {:trigger LastBefore(symbols, i, k)} :: 0 <= i < k && LastBefore(symbols, i, k) ==> sids[symbols[i]] == i
      invariant forall s :: s in sids ==> 0 <= sids[s] < k
      invariant forall s, t :: s in sids && t in sids && s != t ==> sids[s] != sids[t]
    {
      ghost var prev := sids;
      PrefixStep(symbols, k);
      sids := sids[symbols[k] := k];
      forall i | 0 <= i < k + 1 && LastBefore(symbols, i, k + 1) ensures sids[symbols[i]] == i {
        if i < k {
          assert symbols[k] != symbols[i];
          assert LastBefore(symbols, i, k);
          assert sids[symbols[i]] == prev[symbols[i]];
        }
      }
    }
    assert symbols[..|symbols|] == symbols;
  }

  /** What `asset_to_sid_map(asset_finder, symbols)` promises of its dict: the
      keys are the symbols; with a finder, a symbol it knows keeps its sid and
      every miss takes the next consecutive sid after `get_max_sid()`, so the
      new sids lie above it and differ from each other; without one, the i-th
      symbol gets sid i and no two symbols share a sid. A symbol listed twice
      keeps the sid of its last occurrence, as a dict does. */
  ghost predicate AssignedSids(finder: Option<AssetFinder>, symbols: seq<Symbol>, sids: map<Symbol, int>) {
    && (forall s :: s in sids <==> s in symbols)
    && (finder.None? ==>
         && (forall i {:trigger LastBefore(symbols, i, |symbols|)} :: 0 <= i < |symbols| && LastBefore(symbols, i, |symbols|) ==>
               symbols[i] in sids && sids[symbols[i]] == i)
         && (forall s, t :: s in sids && t in sids && s != t ==> sids[s] != sids[t]))
    && (finder.Some? ==>
         && (forall i {:trigger LastBefore(symbols, i, |symbols|)} :: 0 <= i < |symbols| && LastBefore(symbols, i, |symbols|) ==>
               symbols[i] in sids && sids[symbols[i]] == Expected(finder.value, symbols, i))
         && (forall s :: s in sids && s !in finder.value.registry ==> sids[s] > finder.value.maxSid)
         && (forall s, t :: s in sids && t in sids && s != t && s !in finder.value.registry && t !in finder.value.registry ==>
               sids[s] != sids[t]))
  }

  /** `asset_to_sid_map(asset_finder, symbols)`: the finder branch or the
      enumeration, whichever applies. */
  method AssetToSidMap(finder: Option<AssetFinder>, symbols: seq<Symbol>) returns (sids: map<Symbol, int>)
    ensures AssignedSids(finder, symbols, sids)
  {
    if finder.Some? {
      sids := LookupSids(finder.value, symbols);
    } else {
      sids := EnumerateSids(symbols);
    }
  }
}
