/**
 * The HPACK compressor (src/hpack/send_record.cc) as a value: the entries it believes the peer's
 * table holds, newest first, and the 64 slots of its lossy cache. The hash is an arbitrary function.
 */
module CompressorModel {
  import opened Bytes
  import opened Eviction
  import opened Headers
  import opened Representations
  import opened StaticTable

  const NUM_VALUES := 64
  const INITIAL_TABLE_SIZE := 4096

  type Hash = bytes -> nat

  datatype SendRecord = SendRecord(mdel: Header, index: nat)

  const EMPTY := Header([], [])

  /** `tail` entries have been evicted so far, so the entry at `window[k]` has index tail + |window| - k. */
  datatype State = State(window: seq<Header>, tail: nat, slots: seq<SendRecord>, maxSize: nat, maxUsable: nat)

  function Newest(s: State): nat
  {
    s.tail + |s.window|
  }

  ghost predicate WellFormed(s: State)
  {
    && |s.slots| == NUM_VALUES
    && Total(s.window) <= s.maxSize <= s.maxUsable
    && forall i :: 0 <= i < NUM_VALUES ==> SlotSound(s, s.slots[i])
  }

  /** A slot whose index has not been evicted holds the entry at that index. */
  predicate SlotSound(s: State, slot: SendRecord)
  {
    slot.index > s.tail ==> slot.index <= Newest(s) && s.window[Newest(s) - slot.index] == slot.mdel
  }

  function Init(): State
  {
    State([], 0, seq(NUM_VALUES, _ => SendRecord(EMPTY, 0)), INITIAL_TABLE_SIZE, INITIAL_TABLE_SIZE)
  }

  // ---------------------------------------------------------------- the cache

  /** HASH_FRAGMENT_2 and HASH_FRAGMENT_3: the two slots a name may occupy. */
  function First(hash: nat): (i: nat)
    ensures i < NUM_VALUES
  {
    hash / NUM_VALUES % NUM_VALUES
  }

  function Second(hash: nat): (i: nat)
    ensures i < NUM_VALUES
  {
    hash / (NUM_VALUES * NUM_VALUES) % NUM_VALUES
  }

  datatype Match = NotMatch | FullMatch(index: nat) | KeyMatch(index: nat)

  /** GetMatchingIndex */
  function Matching(slots: seq<SendRecord>, tail: nat, mdel: Header, hash: nat): Match
    requires |slots| == NUM_VALUES
  {
    var a, b := slots[First(hash)], slots[Second(hash)];
    if a.mdel == EMPTY && b.mdel == EMPTY then NotMatch
    else if a.mdel == mdel then FullMatch(a.index)
    else if b.mdel == mdel then FullMatch(b.index)
    else
      var keyA := a.mdel != EMPTY && a.mdel.key == mdel.key;
      var keyB := b.mdel != EMPTY && b.mdel.key == mdel.key;
      if !keyA && !keyB then NotMatch
      else
        var candidateA := if keyA then a.index else 0;
        var candidateB := if keyB then b.index else 0;
        var max := if candidateA < candidateB then candidateB else candidateA;
        var min := if candidateB < candidateA then candidateB else candidateA;
        KeyMatch(if min > tail then min else if max > tail then max else tail)
  }

  /** UpdateAddOrEvict */
  function Recorded(slots: seq<SendRecord>, value: Header, hash: nat, index: nat): (r: seq<SendRecord>)
    requires |slots| == NUM_VALUES
    ensures |r| == NUM_VALUES
  {
    var a, b := First(hash), Second(hash);
    if slots[a].mdel == value || slots[a].mdel == EMPTY then slots[a := SendRecord(value, index)]
    else if slots[b].mdel == value || slots[b].mdel == EMPTY then slots[b := SendRecord(value, index)]
    else if slots[a].index < slots[b].index then slots[a := SendRecord(value, index)]
    else slots[b := SendRecord(value, index)]
  }

  // ---------------------------------------------------------------- operations

  function Evicted(s: State, limit: nat): State
  {
    var kept := Evict(s.window, limit);
    s.(window := kept, tail := s.tail + (|s.window| - |kept|))
  }

  /** add_elem; an entry larger than the table empties it and is not recorded. */
  function Added(s: State, h: Header, hash: nat): State
    requires |s.slots| == NUM_VALUES
  {
    if EntrySize(h) > s.maxSize then Evicted(s, 0)
    else
      var room := Evicted(s, s.maxSize - EntrySize(h));
      room.(window := [h] + room.window, slots := Recorded(s.slots, h, hash, Newest(s) + 1))
  }

  datatype Emitted = Emitted(state: State, octets: bytes)

  /** hpack_encode_header */
  function EncodeDynamic(s: State, h: Header, hash: nat): Emitted
    requires WellFormed(s)
  {
    MatchIsSound(s, h, hash);
    var m := Matching(s.slots, s.tail, h, hash);
    if m.NotMatch? || m.index <= s.tail then
      if KeyExists(h.key) then Emitted(Added(s, h, hash), LiteralOctets(INCREMENTAL, h))
      else Emitted(s, LiteralOctets(WITHOUT_INDEXING, h))
    else
      var dynamicIndex := 1 + COUNT + (Newest(s) - m.index);
      if m.FullMatch? then Emitted(s, IndexedOctets(dynamicIndex))
      else Emitted(s, LiteralWithNameIndexOctets(dynamicIndex, h.value))
  }

  function EncodeField(s: State, h: Header, hash: Hash): Emitted
    requires WellFormed(s)
  {
    var index := StaticTable.FullMatch(h);
    if index != 0 then Emitted(s, IndexedOctets(index)) else EncodeDynamic(s, h, hash(h.key))
  }

  /** compressor_encode_headers */
  function EncodeBlock(s: State, hs: seq<Header>, hash: Hash): Emitted
    requires WellFormed(s)
    decreases |hs|
  {
    if hs == [] then Emitted(s, [])
    else
      var one := EncodeField(s, hs[0], hash);
      EncodeFieldWellFormed(s, hs[0], hash);
      var rest := EncodeBlock(one.state, hs[1..], hash);
      Emitted(rest.state, one.octets + rest.octets)
  }

  lemma EncodeBlockSteps(s: State, hs: seq<Header>, hash: Hash)
    requires WellFormed(s)
    ensures hs == [] ==> EncodeBlock(s, hs, hash) == Emitted(s, [])
    ensures hs != [] ==>
              var one := EncodeField(s, hs[0], hash);
              && WellFormed(one.state)
              && EncodeBlock(s, hs, hash).state == EncodeBlock(one.state, hs[1..], hash).state
              && EncodeBlock(s, hs, hash).octets == one.octets + EncodeBlock(one.state, hs[1..], hash).octets
  {
    hide EncodeField;
    if hs != [] {
      EncodeFieldWellFormed(s, hs[0], hash);
    }
  }

  /** compressor_set_max_table_size */
  function WithMaxSize(s: State, size: nat): State
  {
    var max := if size < s.maxUsable then size else s.maxUsable;
    Evicted(s, max).(maxSize := max)
  }

  /** compressor_set_max_usable_size */
  function WithMaxUsable(s: State, size: nat): State
  {
    WithMaxSize(s.(maxUsable := size), if size < s.maxSize then size else s.maxSize)
  }

  // ---------------------------------------------------------------- the cache is sound

  lemma InitWellFormed()
    ensures WellFormed(Init())
  {
  }

  lemma InitAtMaximum()
    ensures WithMaxSize(Init(), INITIAL_TABLE_SIZE) == Init()
  {
  }

  lemma EvictedWellFormed(s: State, limit: nat)
    requires WellFormed(s)
    ensures WellFormed(Evicted(s, limit)) && Total(Evicted(s, limit).window) <= limit
    ensures Newest(Evicted(s, limit)) == Newest(s)
  {
    var r := Evicted(s, limit);
    EvictKeepsMost(s.window, limit, |r.window|);
    TotalMonotone(s.window, |r.window|);
    forall i | 0 <= i < NUM_VALUES ensures SlotSound(r, r.slots[i]) {
      assert SlotSound(s, s.slots[i]);
    }
  }

  lemma AddedWellFormed(s: State, h: Header, hash: nat)
    requires WellFormed(s)
    ensures WellFormed(Added(s, h, hash))
  {
    hide Evict, Total;
    if EntrySize(h) > s.maxSize {
      EvictedWellFormed(s, 0);
    } else {
      var room := Evicted(s, s.maxSize - EntrySize(h));
      EvictedWellFormed(s, s.maxSize - EntrySize(h));
      TotalCons(h, room.window);
      var r := Added(s, h, hash);
      forall i | 0 <= i < NUM_VALUES ensures SlotSound(r, r.slots[i]) {
        assert SlotSound(room, room.slots[i]);
      }
    }
  }

  lemma EncodeFieldWellFormed(s: State, h: Header, hash: Hash)
    requires WellFormed(s)
    ensures WellFormed(EncodeField(s, h, hash).state)
    ensures EncodeField(s, h, hash).state.maxUsable == s.maxUsable && EncodeField(s, h, hash).state.maxSize == s.maxSize
  {
    hide WellFormed, Matching, KeyExists, StaticTable.FullMatch;
    AddedWellFormed(s, h, hash(h.key));
  }

  lemma {:induction false} EncodeBlockWellFormed(c: State, hs: seq<Header>, hash: Hash)
    requires WellFormed(c)
    ensures WellFormed(EncodeBlock(c, hs, hash).state)
    ensures EncodeBlock(c, hs, hash).state.maxSize == c.maxSize
    ensures EncodeBlock(c, hs, hash).state.maxUsable == c.maxUsable
    decreases |hs|
  {
    hide EncodeBlock, EncodeField, WellFormed;
    EncodeBlockSteps(c, hs, hash);
    if hs != [] {
      EncodeFieldWellFormed(c, hs[0], hash);
      EncodeBlockWellFormed(EncodeField(c, hs[0], hash).state, hs[1..], hash);
    }
  }

  lemma WithMaxSizeWellFormed(s: State, size: nat)
    requires WellFormed(s)
    ensures WellFormed(WithMaxSize(s, size)) && WithMaxSize(s, size).maxUsable == s.maxUsable
    ensures WithMaxSize(s, size).maxSize == if size < s.maxUsable then size else s.maxUsable
  {
    var max := if size < s.maxUsable then size else s.maxUsable;
    EvictedWellFormed(s, max);
    var e, r := Evicted(s, max), WithMaxSize(s, size);
    forall i | 0 <= i < NUM_VALUES ensures SlotSound(r, r.slots[i]) {
      assert SlotSound(e, e.slots[i]);
    }
  }

  lemma WithMaxUsableWellFormed(s: State, size: nat)
    requires WellFormed(s)
    ensures WellFormed(WithMaxUsable(s, size)) && WithMaxUsable(s, size).maxUsable == size
  {
    var max := if size < s.maxSize then size else s.maxSize;
    EvictedWellFormed(s, max);
    var e, r := Evicted(s, max), WithMaxUsable(s, size);
    forall i | 0 <= i < NUM_VALUES ensures SlotSound(r, r.slots[i]) {
      assert SlotSound(e, e.slots[i]);
    }
  }

  /**
   * A live match names a live entry: a full match the very field asked for, a key match one with the
   * same name, whatever the hash and whatever was overwritten.
   */
  lemma MatchIsSound(s: State, h: Header, hash: nat)
    requires WellFormed(s)
    ensures var m := Matching(s.slots, s.tail, h, hash);
            !m.NotMatch? && m.index > s.tail ==>
              && m.index <= Newest(s)
              && s.window[Newest(s) - m.index].key == h.key
              && (m.FullMatch? ==> s.window[Newest(s) - m.index] == h)
  {
    assert SlotSound(s, s.slots[First(hash)]);
    assert SlotSound(s, s.slots[Second(hash)]);
  }

  /** A field just added is found again: sent twice in a row, the second time it is one index. */
  lemma RepeatIsIndexed(s: State, h: Header, hash: Hash)
    requires WellFormed(s) && StaticTable.FullMatch(h) == 0 && KeyExists(h.key) && EntrySize(h) <= s.maxSize
    requires var m := Matching(s.slots, s.tail, h, hash(h.key)); m.NotMatch? || m.index <= s.tail
    ensures var once := EncodeField(s, h, hash);
            && once.octets == LiteralOctets(INCREMENTAL, h)
            && WellFormed(once.state)
            && EncodeField(once.state, h, hash) == Emitted(once.state, IndexedOctets(1 + COUNT))
  {
    hide KeyExists, StaticTable.FullMatch, Evict, Total;
    EncodeFieldWellFormed(s, h, hash);
    var once := EncodeField(s, h, hash).state;
    EvictedWellFormed(s, s.maxSize - EntrySize(h));
    assert h != EMPTY by { StaticKeys(h.key); }
    assert Newest(once) == Newest(s) + 1;
    assert Matching(once.slots, once.tail, h, hash(h.key)) == FullMatch(Newest(once));
  }
}
