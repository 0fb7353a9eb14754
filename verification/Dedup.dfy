/** The LRU duplicate filter of the ingest path and what it remembers. */
module Dedup {
  import opened Common

  datatype Key = Key(symbol: string, ts: int)

  function Without(keys: seq<Key>, k: Key): seq<Key> {
    if keys == [] then []
    else
      var rest := Without(keys[..|keys| - 1], k);
      if keys[|keys| - 1] == k then rest else rest + [keys[|keys| - 1]]
  }

  /** All distinct keys offered, least recently offered first. */
  function ByRecency(offered: seq<Key>): seq<Key> {
    if offered == [] then []
    else Without(ByRecency(offered[..|offered| - 1]), offered[|offered| - 1]) + [offered[|offered| - 1]]
  }

  function LastOf(keys: seq<Key>, n: nat): seq<Key> { if |keys| <= n then keys else keys[|keys| - n..] }

  function Capacity(maxsize: int): nat { Max(maxsize, 0) }

  /** The keys offered after the last offer of `k`. */
  function Since(offered: seq<Key>, k: Key): set<Key> {
    if offered == [] || offered[|offered| - 1] == k then {}
    else Since(offered[..|offered| - 1], k) + {offered[|offered| - 1]}
  }

  predicate Distinct(keys: seq<Key>) { forall i, j :: 0 <= i < j < |keys| ==> keys[i] != keys[j] }

  lemma {:induction false} WithoutKeepsOrder(keys: seq<Key>, k: Key)
    requires Distinct(keys)
    ensures Distinct(Without(keys, k))
    ensures forall x :: x in Without(keys, k) <==> x in keys && x != k
    ensures |Without(keys, k)| == |keys| - (if k in keys then 1 else 0)
  {
    if keys == [] {
    } else {
      var n := |keys| - 1;
      WithoutKeepsOrder(keys[..n], k);
      assert keys == keys[..n] + [keys[n]] && keys[n] !in keys[..n];
    }
  }

  lemma {:induction false} WithoutConcat(a: seq<Key>, b: seq<Key>, k: Key)
    ensures Without(a + b, k) == Without(a, k) + Without(b, k)
  {
    if b == [] {
      assert a + b == a;
    } else {
      var n := |b| - 1;
      assert (a + b)[..|a + b| - 1] == a + b[..n];
      WithoutConcat(a, b[..n], k);
    }
  }

  lemma {:induction false} WithoutAbsent(a: seq<Key>, k: Key)
    requires k !in a
    ensures Without(a, k) == a
  {
    if a == [] {
    } else {
      WithoutAbsent(a[..|a| - 1], k);
    }
  }

  lemma {:induction false} RecencyIsDistinct(offered: seq<Key>)
    ensures Distinct(ByRecency(offered))
    ensures forall k :: k in ByRecency(offered) <==> k in offered
  {
    if offered == [] {
    } else {
      var n := |offered| - 1;
      RecencyIsDistinct(offered[..n]);
      WithoutKeepsOrder(ByRecency(offered[..n]), offered[n]);
      assert offered == offered[..n] + [offered[n]];
    }
  }

  // ---- one call ----

  /** The cache after a call: a known key moves to the end, a new one may push out the oldest. */
  function Touch(maxsize: int, cache: seq<Key>, k: Key): seq<Key> {
    if k in cache then Without(cache, k) + [k]
    else if |cache| + 1 > maxsize then (cache + [k])[1..]
    else cache + [k]
  }

  function CacheAfter(maxsize: int, offered: seq<Key>): seq<Key> {
    if offered == [] then []
    else Touch(maxsize, CacheAfter(maxsize, offered[..|offered| - 1]), offered[|offered| - 1])
  }

  lemma TouchIsLastOf(maxsize: int, all: seq<Key>, k: Key)
    requires Distinct(all)
    ensures Touch(maxsize, LastOf(all, Capacity(maxsize)), k) == LastOf(Without(all, k) + [k], Capacity(maxsize))
  {
    hide Without;
    var cache := LastOf(all, Capacity(maxsize));
    var older := all[..|all| - |cache|];
    assert all == older + cache;
    if k in cache { TouchKnown(maxsize, older, cache, k); } else { TouchNew(maxsize, older, cache, k); }
  }

  /** `cache` is what fits of `older + cache`. */
  predicate Fits(maxsize: int, older: seq<Key>, cache: seq<Key>) {
    Distinct(older + cache) && |cache| <= Capacity(maxsize) && (older == [] || |cache| == Capacity(maxsize))
  }

  lemma TouchKnown(maxsize: int, older: seq<Key>, cache: seq<Key>, k: Key)
    requires Fits(maxsize, older, cache) && k in cache
    ensures Touch(maxsize, cache, k) == LastOf(Without(older + cache, k) + [k], Capacity(maxsize))
  {
    hide Without, LastOf;
    assert forall i :: 0 <= i < |older| ==> (older + cache)[i] == older[i];
    assert forall i :: 0 <= i < |cache| ==> (older + cache)[|older| + i] == cache[i];
    WithoutConcat(older, cache, k);
    WithoutAbsent(older, k);
    WithoutKeepsOrder(cache, k);
    var moved := Without(cache, k) + [k];
    assert Without(older + cache, k) + [k] == older + moved;
    LastOfConcat(older, moved, Capacity(maxsize));
  }

  lemma TouchNew(maxsize: int, older: seq<Key>, cache: seq<Key>, k: Key)
    requires Fits(maxsize, older, cache) && k !in cache
    ensures Touch(maxsize, cache, k) == LastOf(Without(older + cache, k) + [k], Capacity(maxsize))
  {
    hide Without, LastOf, Distinct;
    WithoutConcat(older, cache, k);
    WithoutAbsent(cache, k);
    var grown, rest := cache + [k], Without(older, k);
    if |grown| > maxsize {
      assert Without(older + cache, k) + [k] == (rest + grown[..1]) + grown[1..];
      LastOfConcat(rest + grown[..1], grown[1..], Capacity(maxsize));
    } else {
      WithoutAbsent(older, k);
      assert Without(older + cache, k) + [k] == [] + grown;
      LastOfConcat([], grown, Capacity(maxsize));
    }
  }

  lemma LastOfConcat(a: seq<Key>, b: seq<Key>, n: nat)
    requires |b| <= n && (a == [] || |b| == n)
    ensures LastOf(a + b, n) == b
  {}

  /** After any calls the cache is the `maxsize` most recently offered distinct keys, in order. */
  lemma {:induction false} CacheIsMostRecent(maxsize: int, offered: seq<Key>)
    ensures CacheAfter(maxsize, offered) == LastOf(ByRecency(offered), Capacity(maxsize))
  {
    hide Touch, LastOf;
    if offered == [] {
      NothingRecent(maxsize);
    } else {
      var n := |offered| - 1;
      CacheIsMostRecent(maxsize, offered[..n]);
      RecencyIsDistinct(offered[..n]);
      TouchIsLastOf(maxsize, ByRecency(offered[..n]), offered[n]);
    }
  }

  lemma NothingRecent(maxsize: int)
    ensures LastOf([], Capacity(maxsize)) == []
  {}

  // ---- when a key is reported as seen ----

  /** The part of `keys` behind `k`. */
  function After(keys: seq<Key>, k: Key): seq<Key> {
    if keys == [] || keys[|keys| - 1] == k then []
    else After(keys[..|keys| - 1], k) + [keys[|keys| - 1]]
  }

  function Elements(keys: seq<Key>): set<Key> { set x | x in keys }

  lemma ElementsSnoc(keys: seq<Key>, x: Key)
    ensures Elements(keys + [x]) == Elements(keys) + {x}
  {}

  lemma {:induction false} AfterSplits(keys: seq<Key>, k: Key)
    requires k in keys
    ensures |After(keys, k)| < |keys| && keys[|keys| - |After(keys, k)|..] == After(keys, k)
    ensures keys[|keys| - |After(keys, k)| - 1] == k
  {
    var n := |keys| - 1;
    if keys[n] == k {
    } else {
      assert keys == keys[..n] + [keys[n]];
      AfterSplits(keys[..n], k);
    }
  }

  /** Moving another key to the end leaves what was behind `k`, plus that key. */
  lemma {:induction false} AfterMove(keys: seq<Key>, k: Key, x: Key)
    requires Distinct(keys) && k in keys && x != k
    ensures Elements(After(Without(keys, x) + [x], k)) == Elements(After(keys, k)) + {x}
  {
    var moved := Without(keys, x);
    assert (moved + [x])[..|moved|] == moved;
    AfterWithout(keys, k, x);
    ElementsSnoc(After(moved, k), x);
  }

  lemma {:induction false} AfterWithout(keys: seq<Key>, k: Key, x: Key)
    requires k in keys && x != k
    ensures Elements(After(Without(keys, x), k)) == Elements(After(keys, k)) - {x}
  {
    var n := |keys| - 1;
    if keys[n] == k {
      var w := Without(keys[..n], x);
      assert (w + [k])[|w|] == k;
    } else {
      assert k in keys[..n];
      AfterWithout(keys[..n], k, x);
      if keys[n] != x {
        var w := Without(keys[..n], x);
        assert (w + [keys[n]])[..|w|] == w;
        ElementsSnoc(After(w, k), keys[n]);
      }
      ElementsSnoc(After(keys[..n], k), keys[n]);
    }
  }

  lemma {:induction false} BehindIsSince(offered: seq<Key>, k: Key)
    requires k in offered
    ensures Elements(After(ByRecency(offered), k)) == Since(offered, k)
  {
    var n := |offered| - 1;
    var before, last := ByRecency(offered[..n]), offered[n];
    if last != k {
      assert offered == offered[..n] + [last];
      BehindIsSince(offered[..n], k);
      RecencyIsDistinct(offered[..n]);
      AfterMove(before, k, last);
    } else {
      var moved := Without(before, k) + [k];
      assert moved[|moved| - 1] == k;
    }
  }

  lemma {:induction false} DistinctSize(keys: seq<Key>)
    requires Distinct(keys)
    ensures |Elements(keys)| == |keys|
  {
    if keys == [] {
    } else {
      var n := |keys| - 1;
      DistinctSize(keys[..n]);
      assert Elements(keys) == Elements(keys[..n]) + {keys[n]};
    }
  }

  /** A key is among the last `n` exactly when fewer than `n` keys are behind it. */
  lemma InLastOf(keys: seq<Key>, n: nat, k: Key)
    requires Distinct(keys) && k in keys
    ensures k in LastOf(keys, n) <==> |After(keys, k)| < n
  {
    AfterSplits(keys, k);
    var at := |keys| - |After(keys, k)| - 1;
    assert keys[at] == k;
    if |keys| > n {
      if k in keys[|keys| - n..] {
        var i :| 0 <= i < n && keys[|keys| - n..][i] == k;
        assert keys[|keys| - n + i] == k;
      }
      if at >= |keys| - n { assert keys[|keys| - n..][at - (|keys| - n)] == k; }
    }
  }

  /**
   A call reports a duplicate exactly when the key was offered before and fewer than
   `maxsize` other distinct keys have been offered since.
   */
  lemma SeenIffRecent(maxsize: int, offered: seq<Key>, k: Key)
    ensures k in CacheAfter(maxsize, offered)
            <==> k in offered && |Since(offered, k)| < Capacity(maxsize)
  {
    hide CacheAfter, ByRecency, Since, Elements, After, LastOf;
    CacheIsMostRecent(maxsize, offered);
    RecencyIsDistinct(offered);
    var all := ByRecency(offered);
    LastOfSubset(all, Capacity(maxsize));
    if k in offered {
      InLastOf(all, Capacity(maxsize), k);
      BehindIsSince(offered, k);
      AfterSplits(all, k);
      DistinctTail(all, |all| - |After(all, k)|);
      DistinctSize(After(all, k));
    }
  }

  lemma DistinctTail(keys: seq<Key>, i: nat)
    requires Distinct(keys) && i <= |keys|
    ensures Distinct(keys[i..])
  {}

  lemma LastOfSubset(keys: seq<Key>, n: nat)
    ensures forall k :: k in LastOf(keys, n) ==> k in keys
  {}

  class DedupFilter {
    const maxsize: int
    var cache: seq<Key>

    constructor (maxsize: int)
      ensures this.maxsize == maxsize && cache == CacheAfter(maxsize, [])
    {
      this.maxsize, cache := maxsize, [];
    }

    /** `offered` is the call history that led to the present cache. */
    method Seen(symbol: string, ts: int, ghost offered: seq<Key>) returns (duplicate: bool)
      requires cache == CacheAfter(maxsize, offered)
      modifies this
      ensures cache == CacheAfter(maxsize, offered + [Key(symbol, ts)])
      ensures duplicate <==> Key(symbol, ts) in offered && |Since(offered, Key(symbol, ts))| < Capacity(maxsize)
    {
      var key := Key(symbol, ts);
      SeenIffRecent(maxsize, offered, key);
      assert (offered + [key])[..|offered|] == offered;
      hide Since;
      if key in cache {
        cache := Without(cache, key) + [key];
        return true;
      }
      cache := cache + [key];
      if |cache| > maxsize { cache := cache[1..]; }
      return false;
    }
  }
}
