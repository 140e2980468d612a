/**
 * Eviction from a list of header fields kept newest first (section 4.4 of RFC 7541), the one idea
 * the decoder's table and the compressor's guess of it share.
 */
module Eviction {
  import opened Headers

  function Total(w: seq<Header>): (n: nat)
    ensures n >= ENTRY_OVERHEAD * |w|
  {
    if w == [] then 0 else Total(w[..|w| - 1]) + EntrySize(w[|w| - 1])
  }

  /** Drops entries from the old end until the rest fits `limit`. */
  function Evict(w: seq<Header>, limit: nat): (r: seq<Header>)
    ensures r <= w && Total(r) <= limit
    ensures Total(w) <= limit ==> r == w
  {
    if Total(w) <= limit then w else Evict(w[..|w| - 1], limit)
  }

  /** What is kept is the longest newest-first prefix that fits. */
  lemma {:induction false} EvictKeepsMost(w: seq<Header>, limit: nat, k: nat)
    requires k <= |w|
    ensures Total(w[..k]) <= limit <==> k <= |Evict(w, limit)|
  {
    var r := Evict(w, limit);
    if Total(w) <= limit {
      TotalMonotone(w, k);
    } else if k == |w| {
      assert w[..k] == w;
    } else {
      var shorter := w[..|w| - 1];
      EvictKeepsMost(shorter, limit, k);
      assert shorter[..k] == w[..k];
    }
  }

  lemma {:induction false} TotalMonotone(w: seq<Header>, k: nat)
    requires k <= |w|
    ensures Total(w[..k]) <= Total(w)
  {
    if k < |w| {
      var shorter := w[..|w| - 1];
      TotalMonotone(shorter, k);
      assert shorter[..k] == w[..k];
    } else {
      assert w[..k] == w;
    }
  }

  lemma {:induction false} TotalCons(h: Header, w: seq<Header>)
    ensures Total([h] + w) == EntrySize(h) + Total(w)
  {
    var all := [h] + w;
    if w == [] {
      assert all[..0] == [];
    } else {
      TotalCons(h, w[..|w| - 1]);
      assert all[..|all| - 1] == [h] + w[..|w| - 1];
    }
  }

  /** A tighter limit on a newest-first prefix keeps a newest-first prefix. */
  lemma EvictPrefix(w: seq<Header>, d: seq<Header>, small: nat, large: nat)
    requires w <= d && small <= large
    ensures Evict(w, small) <= Evict(d, large)
  {
    var k := |Evict(w, small)|;
    EvictKeepsMost(w, small, k);
    EvictKeepsMost(d, large, k);
    assert d[..k] == w[..k];
  }

  /** Evicting first and then inserting, as section 4.4 words it and as the compressor does. */
  function EvictThenInsert(w: seq<Header>, h: Header, max: nat): seq<Header>
  {
    if EntrySize(h) > max then [] else [h] + Evict(w, max - EntrySize(h))
  }

  /** Inserting first and then evicting, as the decoder's deque does. */
  function InsertThenEvict(w: seq<Header>, h: Header, max: nat): seq<Header>
  {
    Evict([h] + w, max)
  }

  lemma SameInsertion(w: seq<Header>, h: Header, max: nat)
    ensures EvictThenInsert(w, h, max) == InsertThenEvict(w, h, max)
  {
    var late := InsertThenEvict(w, h, max);
    if late != [] {
      KeptTogether(w, h, max, |late| - 1);
    }
    if EntrySize(h) <= max {
      var kept := Evict(w, max - EntrySize(h));
      KeptTogether(w, h, max, |kept|);
      assert |late| == |kept| + 1;
      assert late == [h] + kept;
    }
  }

  /** The entry at position `k` and all newer ones survive the one exactly if they survive the other. */
  lemma KeptTogether(w: seq<Header>, h: Header, max: nat, k: nat)
    requires k <= |w|
    ensures k + 1 <= |InsertThenEvict(w, h, max)| <==>
            EntrySize(h) <= max && k <= |Evict(w, max - EntrySize(h))|
  {
    PrefixOfCons(h, w, k);
    EvictKeepsMost([h] + w, max, k + 1);
    if EntrySize(h) <= max {
      EvictKeepsMost(w, max - EntrySize(h), k);
    }
  }

  lemma PrefixOfCons(h: Header, w: seq<Header>, k: nat)
    requires k <= |w|
    ensures ([h] + w)[..k + 1] == [h] + w[..k]
    ensures Total(([h] + w)[..k + 1]) == EntrySize(h) + Total(w[..k])
  {
    assert ([h] + w)[..k + 1] == [h] + w[..k];
    TotalCons(h, w[..k]);
  }
}

/** The decoder's dynamic table (src/hpack/dynamic_metadata.cc). */
module DynamicTable {
  import opened Bytes
  import opened Eviction
  import opened Headers

  /** The table as a value: its entries newest first, its current maximum and the protocol's limit. */
  datatype Table = Table(entries: seq<Header>, maxSize: nat, limit: nat)

  function Pushed(t: Table, h: Header): Table
  {
    t.(entries := InsertThenEvict(t.entries, h, t.maxSize))
  }

  function Resized(t: Table, size: nat): Table
  {
    t.(entries := Evict(t.entries, size), maxSize := size)
  }

  class DynamicMetadataTable {
    var entries: seq<Header>
    var currentTableSize: nat
    var maxTableSize: nat
    var maxTableSizeLimit: nat

    ghost predicate Valid()
      reads this
    {
      currentTableSize == Total(entries) <= maxTableSize
    }

    function State(): Table
      reads this
    {
      Table(entries, maxTableSize, maxTableSizeLimit)
    }

    constructor (defaultMaxSize: nat)
      ensures Valid() && State() == Table([], defaultMaxSize, defaultMaxSize)
    {
      entries, currentTableSize := [], 0;
      maxTableSize, maxTableSizeLimit := defaultMaxSize, defaultMaxSize;
    }

    /** get_mdelem_data */
    method Get(index: nat) returns (r: Option<Header>)
      ensures r == if index < |entries| then Some(entries[index]) else None
    {
      if index >= |entries| {
        return None;
      }
      return Some(entries[index]);
    }

    /** push_mdelem_data */
    method Push(h: Header)
      requires Valid()
      modifies this
      ensures Valid() && State() == Pushed(old(State()), h)
    {
      TotalCons(h, entries);
      entries := [h] + entries;
      currentTableSize := currentTableSize + (|h.key| + |h.value|);
      currentTableSize := currentTableSize + 32;
      Adjust();
    }

    /** update_max_table_size */
    method UpdateMaxTableSize(size: nat)
      requires Valid()
      modifies this
      ensures Valid() && State() == Resized(old(State()), size)
    {
      maxTableSize := size;
      Adjust();
    }

    /** adjust_dynamic_table_size */
    method Adjust()
      requires currentTableSize == Total(entries)
      modifies this`entries, this`currentTableSize
      ensures Valid() && entries == Evict(old(entries), maxTableSize)
    {
      while currentTableSize > maxTableSize && entries != []
        invariant currentTableSize == Total(entries)
        invariant Evict(entries, maxTableSize) == Evict(old(entries), maxTableSize)
        decreases |entries|
      {
        var entry := entries[|entries| - 1];
        currentTableSize := currentTableSize - (|entry.key| + |entry.value| + 32);
        entries := entries[..|entries| - 1];
      }
    }
  }
}
