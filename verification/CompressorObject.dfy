/**
 * The compressor as src/hpack/send_record.cc keeps it: counters, a ring of entry sizes and an array
 * of slots, all updated in place. `window` is what they stand for.
 */
module Compressor {
  import opened Arithmetic
  import opened Bytes
  import opened CompressorModel
  import opened Eviction
  import opened Headers
  import opened Representations
  import StaticTable

  /** elems_for_bytes */
  function ElemsForBytes(size: nat): (n: nat)
    ensures 32 * n >= size
  {
    (size + 31) / 32
  }

  /** Where the ring of `cap` sizes keeps the one for an entry's index. */
  function RingSlot(index: nat, cap: nat): (i: nat)
    requires cap > 0
    ensures i < cap
  {
    index % cap
  }

  lemma RingSlotsDiffer(a: nat, b: nat, cap: nat)
    requires cap > 0 && a < b < a + cap
    ensures RingSlot(a, cap) != RingSlot(b, cap)
  {
    DistinctRemainders(a, b, cap);
  }

  /** `ring` has the sizes of the `n` oldest entries, the first of which has the index after `tail`. */
  predicate Copied(window: seq<Header>, tail: nat, ring: seq<nat>, n: nat)
    requires |ring| > 0 && n <= |window|
  {
    forall e :: tail < e <= tail + n ==> ring[RingSlot(e, |ring|)] == EntrySize(window[tail + |window| - e])
  }

  lemma NoneCopied(window: seq<Header>, tail: nat, ring: seq<nat>)
    requires |ring| > 0
    ensures Copied(window, tail, ring, 0)
  {
  }

  /** One more size copied from one ring to another that is large enough. */
  lemma OneCopied(window: seq<Header>, tail: nat, ring: seq<nat>, fresher: seq<nat>, n: nat)
    requires |ring| > 0 && n < |window| <= |fresher|
    requires Copied(window, tail, ring, |window|) && Copied(window, tail, fresher, n)
    ensures var e := tail + n + 1;
            Copied(window, tail, fresher[RingSlot(e, |fresher|) := ring[RingSlot(e, |ring|)]], n + 1)
  {
    hide RingSlot;
    var at := tail + n + 1;
    forall e | tail < e < at ensures RingSlot(e, |fresher|) != RingSlot(at, |fresher|) {
      RingSlotsDiffer(e, at, |fresher|);
    }
  }

  /** get_base64_encoded_size */
  function Base64Size(raw: nat): nat
  {
    raw / 3 * 4 + (match raw % 3 case 0 => 0 case 1 => 2 case _ => 3)
  }

  /** get_size_in_hpack_table */
  function SizeInTable(h: Header, useTrueBinaryMetadata: bool): nat
  {
    32 + |h.key| +
    (if StaticTable.IsBinaryKey(h.key) then
       if useTrueBinaryMetadata then |h.value| + 1 else Base64Size(|h.value|)
     else |h.value|)
  }

  /** For every name the compressor ever inserts, it and the decoder charge the same size. */
  lemma StaticNamesSizedAlike(h: Header, useTrueBinaryMetadata: bool)
    requires StaticTable.KeyExists(h.key)
    ensures SizeInTable(h, useTrueBinaryMetadata) == EntrySize(h)
  {
    StaticTable.StaticKeys(h.key);
  }

  class Compressor {
    var maxTableSize: nat
    var maxTableElems: nat
    var capTableElems: nat
    var maxUsableSize: nat
    var tailRemoteIndex: nat
    var tableSize: nat
    var tableElems: nat
    var tableElemSize: array<nat>
    var entries: array<SendRecord>
    const hash: Hash
    ghost var window: seq<Header>

    ghost function Value(): State
      reads this, entries
    {
      State(window, tailRemoteIndex, entries[..], maxTableSize, maxUsableSize)
    }

    /** The ring holds, at each live index, the size of the entry with that index. */
    ghost predicate RingHolds(ring: array<nat>, cap: nat)
      requires ring.Length == cap > 0
      reads this`window, this`tailRemoteIndex, ring
    {
      forall e :: tailRemoteIndex < e <= tailRemoteIndex + |window| ==>
        ring[RingSlot(e, cap)] == EntrySize(window[tailRemoteIndex + |window| - e])
    }

    /** Everything that must hold of the counters and the ring. */
    ghost predicate RingValid()
      reads this, tableElemSize
    {
      && tableElemSize.Length == capTableElems > 0
      && tableElems == |window| && tableSize == Total(window)
      && RingHolds(tableElemSize, capTableElems)
    }

    ghost predicate Valid()
      reads this, tableElemSize, entries
    {
      && entries.Length == NUM_VALUES
      && RingValid()
      && maxTableElems == ElemsForBytes(maxTableSize) <= capTableElems
      && WellFormed(Value())
    }

    lemma Accounting()
      requires Valid()
      ensures 32 * tableElems <= tableSize <= maxTableSize
      ensures tableElems <= maxTableElems <= capTableElems
    {
    }

    /** compressor_init */
    constructor (hash: Hash)
      ensures Valid() && fresh(tableElemSize) && fresh(entries)
      ensures Value() == Init() && this.hash == hash
    {
      maxTableSize := INITIAL_TABLE_SIZE;
      capTableElems := ElemsForBytes(INITIAL_TABLE_SIZE);
      maxTableElems := ElemsForBytes(INITIAL_TABLE_SIZE);
      maxUsableSize := INITIAL_TABLE_SIZE;
      tailRemoteIndex := 0;
      tableSize := 0;
      tableElems := 0;
      tableElemSize := new nat[ElemsForBytes(INITIAL_TABLE_SIZE)](_ => 0);
      entries := new SendRecord[NUM_VALUES](_ => SendRecord(EMPTY, 0));
      this.hash := hash;
      window := [];
    }

    /** evict_entry, with its assertions */
    method EvictEntry()
      requires RingValid() && window != []
      modifies this`tailRemoteIndex, this`tableSize, this`tableElems, this`window
      ensures RingValid()
      ensures window == old(window[..|window| - 1]) && tailRemoteIndex == old(tailRemoteIndex) + 1
    {
      ghost var n := |window|;
      tailRemoteIndex := tailRemoteIndex + 1;
      assert tailRemoteIndex > 0;
      assert tableElemSize[RingSlot(tailRemoteIndex, capTableElems)] == EntrySize(window[n - 1]);
      assert tableSize >= tableElemSize[RingSlot(tailRemoteIndex, capTableElems)];
      assert tableElems > 0;
      tableSize := tableSize - tableElemSize[RingSlot(tailRemoteIndex, capTableElems)];
      tableElems := tableElems - 1;
      window := window[..n - 1];
    }

    /** The loops that drop entries until what is left fits `limit`. */
    method EvictTo(limit: nat)
      requires RingValid()
      modifies this`tailRemoteIndex, this`tableSize, this`tableElems, this`window
      ensures RingValid()
      ensures window == Evict(old(window), limit)
      ensures tailRemoteIndex + |window| == old(tailRemoteIndex + |window|)
    {
      while tableSize > 0 && tableSize > limit
        invariant RingValid()
        invariant Evict(window, limit) == Evict(old(window), limit)
        invariant tailRemoteIndex + |window| == old(tailRemoteIndex + |window|)
        decreases |window|
      {
        EvictEntry();
      }
    }

    /** prepare_space_for_new_elem */
    method PrepareSpace(elemSize: nat, ghost h: Header) returns (newIndex: nat)
      requires RingValid() && tableSize <= maxTableSize && maxTableElems == ElemsForBytes(maxTableSize) <= capTableElems
      requires elemSize == EntrySize(h) && elemSize < 65536
      modifies this`tailRemoteIndex, this`tableSize, this`tableElems, this`window, tableElemSize
      ensures RingValid()
      ensures window == EvictThenInsert(old(window), h, maxTableSize)
      ensures newIndex == if elemSize > maxTableSize then 0 else tailRemoteIndex + |window|
      ensures tailRemoteIndex + |window| == old(tailRemoteIndex + |window|) + (if elemSize > maxTableSize then 0 else 1)
    {
      hide Evict, RingHolds;
      newIndex := tailRemoteIndex + tableElems + 1;
      if elemSize > maxTableSize {
        EvictTo(0);
        assert window == [];
        return 0;
      }
      EvictTo(maxTableSize - elemSize);
      assert 32 * tableElems + 32 <= maxTableSize;
      assert tableElems < maxTableElems;
      Append(elemSize, newIndex, h);
    }

    /** The end of prepare_space_for_new_elem: the new size enters the ring. */
    method Append(elemSize: nat, newIndex: nat, ghost h: Header)
      requires RingValid() && elemSize == EntrySize(h) && elemSize < 65536
      requires tableElems < capTableElems && newIndex == tailRemoteIndex + tableElems + 1
      modifies this`tableSize, this`tableElems, this`window, tableElemSize
      ensures RingValid()
      ensures window == [h] + old(window)
    {
      hide Total;
      var slot := RingSlot(newIndex, capTableElems);
      forall e | tailRemoteIndex < e < newIndex ensures RingSlot(e, capTableElems) != slot {
        RingSlotsDiffer(e, newIndex, capTableElems);
      }
      tableElemSize[slot] := elemSize % 65536;
      TotalCons(h, window);
      tableSize := tableSize + elemSize;
      tableElems := tableElems + 1;
      window := [h] + window;
    }

    /** UpdateAddOrEvict, with ReplaceOlderIndex */
    method UpdateAddOrEvict(value: Header, valueHash: nat, newIndex: nat)
      requires entries.Length == NUM_VALUES
      modifies entries
      ensures entries[..] == Recorded(old(entries[..]), value, valueHash, newIndex)
    {
      var cuckooFirst := First(valueHash);
      if entries[cuckooFirst].mdel == value {
        entries[cuckooFirst] := entries[cuckooFirst].(index := newIndex);
        return;
      }
      if entries[cuckooFirst].mdel == EMPTY {
        entries[cuckooFirst] := SendRecord(value, newIndex);
        return;
      }
      var cuckooSecond := Second(valueHash);
      if entries[cuckooSecond].mdel == value {
        entries[cuckooSecond] := entries[cuckooSecond].(index := newIndex);
        return;
      }
      if entries[cuckooSecond].mdel == EMPTY {
        entries[cuckooSecond] := SendRecord(value, newIndex);
        return;
      }
      var older := if entries[cuckooFirst].index < entries[cuckooSecond].index then cuckooFirst else cuckooSecond;
      entries[older] := SendRecord(value, newIndex);
    }

    /** add_elem */
    method AddElem(h: Header, elemSize: nat, keyHash: nat)
      requires Valid() && elemSize == EntrySize(h) && elemSize < 65536
      modifies this`tailRemoteIndex, this`tableSize, this`tableElems, this`window, tableElemSize, entries
      ensures Valid() && Value() == Added(old(Value()), h, keyHash)
    {
      hide WellFormed, Recorded, Evict;
      AddedWellFormed(Value(), h, keyHash);
      Accounting();
      ghost var before, after := Value(), Added(Value(), h, keyHash);
      var newIndex := PrepareSpace(elemSize, h);
      assert entries[..] == before.slots;
      assert window == after.window && tailRemoteIndex == after.tail;
      if newIndex != 0 {
        UpdateAddOrEvict(h, keyHash, newIndex);
      }
    }

    /** hpack_encode_header */
    method EncodeHeader(h: Header, useTrueBinaryMetadata: bool) returns (s: bytes)
      requires Valid() && (StaticTable.KeyExists(h.key) ==> EntrySize(h) < 65536)
      modifies this`tailRemoteIndex, this`tableSize, this`tableElems, this`window, tableElemSize, entries
      ensures Valid()
      ensures Emitted(Value(), s) == EncodeDynamic(old(Value()), h, hash(h.key))
    {
      hide WellFormed, Added, Matching, StaticTable.KeyExists, SizeInTable, LiteralOctets, IndexedOctets,
           LiteralWithNameIndexOctets;
      var keyHash := hash(h.key);
      var decoderSpaceUsage := SizeInTable(h, useTrueBinaryMetadata);
      MatchIsSound(Value(), h, keyHash);
      var m := Matching(entries[..], tailRemoteIndex, h, keyHash);
      if m.NotMatch? || m.index <= tailRemoteIndex {
        var keyInterned := StaticTable.KeyExists(h.key);
        if keyInterned {
          StaticNamesSizedAlike(h, useTrueBinaryMetadata);
          AddElem(h, decoderSpaceUsage, keyHash);
          s := EncodeMdelem(h, INCREMENTAL);
        } else {
          s := EncodeMdelem(h, WITHOUT_INDEXING);
        }
        return;
      }
      var idx := 1 + StaticTable.COUNT + tailRemoteIndex + tableElems - m.index;
      if m.FullMatch? {
        s := EncodeIndex(idx);
      } else {
        s := EncodeWithNameIndex(h, idx);
      }
    }

    /** One turn of the loop of compressor_encode_headers. */
    method EncodeOne(md: Header, useTrueBinaryMetadata: bool) returns (s: bytes)
      requires Valid() && (StaticTable.KeyExists(md.key) ==> EntrySize(md) < 65536)
      modifies this`tailRemoteIndex, this`tableSize, this`tableElems, this`window, tableElemSize, entries
      ensures Valid()
      ensures Emitted(Value(), s) == EncodeField(old(Value()), md, hash)
    {
      hide EncodeDynamic, StaticTable.KeyExists, StaticTable.FullMatch;
      var index := StaticTable.FullMatch(md);
      if index != 0 {
        s := EncodeIndex(index);
      } else {
        s := EncodeHeader(md, useTrueBinaryMetadata);
      }
    }

    /** compressor_encode_headers: the slices it adds to the output, in order. */
    method EncodeHeaders(metadata: seq<Header>, useTrueBinaryMetadata: bool) returns (output: seq<bytes>)
      requires Valid()
      requires forall i :: 0 <= i < |metadata| && StaticTable.KeyExists(metadata[i].key) ==>
                 EntrySize(metadata[i]) < 65536
      modifies this`tailRemoteIndex, this`tableSize, this`tableElems, this`window, tableElemSize, entries
      ensures Valid()
      ensures Emitted(Value(), Concat(output)) == EncodeBlock(old(Value()), metadata, hash)
    {
      hide EncodeBlock, EncodeField, WellFormed, Concat;
      output := [];
      var i := 0;
      ghost var whole := EncodeBlock(Value(), metadata, hash);
      assert metadata[0..] == metadata;
      assert Concat(output) == [] by { ConcatEmpty(); }
      while i < |metadata|
        invariant i <= |metadata| && Valid()
        invariant EncodeBlock(Value(), metadata[i..], hash).state == whole.state
        invariant Concat(output) + EncodeBlock(Value(), metadata[i..], hash).octets == whole.octets
      {
        ghost var rest := metadata[i..];
        assert rest[0] == metadata[i] && rest[1..] == metadata[i + 1..];
        EncodeBlockSteps(Value(), rest, hash);
        ghost var before := output;
        var s := EncodeOne(metadata[i], useTrueBinaryMetadata);
        output := output + [s];
        ConcatSnoc(before, s);
        i := i + 1;
      }
      assert metadata[i..] == [];
      EncodeBlockSteps(Value(), [], hash);
    }

    /** rebuild_elems: the ring moves to a new capacity and keeps every live size. */
    method RebuildElems(newCap: nat)
      requires RingValid() && newCap > 0
      modifies this`capTableElems, this`tableElemSize
      ensures RingValid()
      ensures if tableElems > newCap then unchanged(this)
              else capTableElems == newCap && fresh(tableElemSize)
    {
      hide RingHolds, Copied, RingSlot, Total;
      var fresher := new nat[newCap](_ => 0);
      if tableElems > newCap {
        return;
      }
      ghost var ring := tableElemSize[..];
      RingIsCopied();
      assert Copied(window, tailRemoteIndex, fresher[..], 0) by { NoneCopied(window, tailRemoteIndex, fresher[..]); }
      var i := 0;
      while i < tableElems
        invariant i <= tableElems == |window|
        invariant unchanged(this) && tableElemSize[..] == ring
        invariant Copied(window, tailRemoteIndex, fresher[..], i)
      {
        var ofs := tailRemoteIndex + i + 1;
        OneCopied(window, tailRemoteIndex, ring, fresher[..], i);
        fresher[RingSlot(ofs, newCap)] := tableElemSize[RingSlot(ofs, capTableElems)];
        i := i + 1;
      }
      capTableElems := newCap;
      tableElemSize := fresher;
      CopiedIsRing();
    }

    lemma RingIsCopied()
      requires RingValid()
      ensures Copied(window, tailRemoteIndex, tableElemSize[..], |window|)
    {
    }

    lemma CopiedIsRing()
      requires tableElemSize.Length == capTableElems > 0
      requires Copied(window, tailRemoteIndex, tableElemSize[..], |window|)
      ensures RingHolds(tableElemSize, capTableElems)
    {
      hide RingSlot;
      forall e | tailRemoteIndex < e <= tailRemoteIndex + |window|
        ensures tableElemSize[RingSlot(e, capTableElems)] ==
                EntrySize(window[tailRemoteIndex + |window| - e])
      {
        assert tableElemSize[..][RingSlot(e, capTableElems)] == tableElemSize[RingSlot(e, capTableElems)];
      }
    }

    /** compressor_set_max_table_size */
    method SetMaxTableSize(size: nat)
      requires Valid()
      modifies this`maxTableSize, this`maxTableElems, this`capTableElems, this`tableElemSize,
               this`tailRemoteIndex, this`tableSize, this`tableElems, this`window
      ensures Valid() && Value() == WithMaxSize(old(Value()), size)
      ensures fresh(tableElemSize) || tableElemSize == old(tableElemSize)
    {
      WithMaxSizeWellFormed(Value(), size);
      Resize(size);
    }

    /** The body of compressor_set_max_table_size, which does not rely on the old maximum being usable. */
    method Resize(size: nat)
      requires entries.Length == NUM_VALUES && RingValid()
      requires Total(window) <= maxTableSize && maxTableElems == ElemsForBytes(maxTableSize) <= capTableElems
      requires WellFormed(WithMaxSize(Value(), size))
      modifies this`maxTableSize, this`maxTableElems, this`capTableElems, this`tableElemSize,
               this`tailRemoteIndex, this`tableSize, this`tableElems, this`window
      ensures Valid() && Value() == WithMaxSize(old(Value()), size)
      ensures fresh(tableElemSize) || tableElemSize == old(tableElemSize)
    {
      hide WellFormed, Evict, Total, RingHolds, RingSlot;
      var max := if size < maxUsableSize then size else maxUsableSize;
      if max == maxTableSize {
        return;
      }
      EvictTo(max);
      assert 32 * tableElems <= max;
      maxTableSize := max;
      maxTableElems := ElemsForBytes(max);
      if maxTableElems > capTableElems {
        RebuildElems(if 2 * capTableElems < maxTableElems then maxTableElems else 2 * capTableElems);
      } else if maxTableElems < capTableElems / 3 {
        var newCap := if maxTableElems < 16 then 16 else maxTableElems;
        if newCap != capTableElems {
          RebuildElems(newCap);
        }
      }
    }

    /** compressor_set_max_usable_size */
    method SetMaxUsableSize(size: nat)
      requires Valid()
      modifies this`maxTableSize, this`maxTableElems, this`capTableElems, this`tableElemSize, this`maxUsableSize,
               this`tailRemoteIndex, this`tableSize, this`tableElems, this`window
      ensures Valid() && Value() == WithMaxUsable(old(Value()), size)
      ensures fresh(tableElemSize) || tableElemSize == old(tableElemSize)
    {
      WithMaxUsableWellFormed(Value(), size);
      maxUsableSize := size;
      Resize(if maxTableSize < size then maxTableSize else size);
    }
  }
}
