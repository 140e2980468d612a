/**
 * What the compressor makes of each field: which representation goes out, which fields are entered, and which
 * of two slots of its cache is given up. Decoding alone would also be met by sending everything as literals.
 */
module CompressorLaws {
  import opened Bytes
  import opened CompressorModel
  import opened Eviction
  import opened Headers
  import HpackSync
  import opened Representations
  import opened StaticOrder
  import opened StaticTable

  /** The field at index `i` of the static table costs one octet, and nothing is remembered of it. */
  lemma StaticFieldIsOneOctet(s: State, i: nat, hash: Hash)
    requires WellFormed(s) && 1 <= i <= COUNT
    ensures EncodeField(s, Entry(i), hash) == Emitted(s, [0x80 + i])
  {
    hide WellFormed, Entry, StaticTable.FullMatch, EncodeDynamic;
    EachHasItsIndex(i);
    assert IndexedOctets(i) == [0x80 + i];
  }

  lemma FreshIsAdded(s: State, h: Header, hash: Hash)
    requires WellFormed(s) && StaticTable.FullMatch(h) == 0 && KeyExists(h.key)
    requires var m := Matching(s.slots, s.tail, h, hash(h.key)); m.NotMatch? || m.index <= s.tail
    ensures EncodeField(s, h, hash) == Emitted(Added(s, h, hash(h.key)), LiteralOctets(INCREMENTAL, h))
  {
    hide KeyExists, StaticTable.FullMatch, Matching, Added, LiteralOctets, WellFormed;
    HpackSync.MaxIsUsable(s);
  }

  lemma AddedFits(s: State, h: Header, hash: nat)
    requires WellFormed(s) && EntrySize(h) <= s.maxSize
    ensures var r := Added(s, h, hash);
            && r.window == [h] + Evict(s.window, s.maxSize - EntrySize(h))
            && r.slots == Recorded(s.slots, h, hash, Newest(s) + 1) && Newest(r) == Newest(s) + 1 && r.tail <= Newest(s)
  {
    hide Evict, Total, Recorded;
    EvictedWellFormed(s, s.maxSize - EntrySize(h));
  }

  lemma AddedEmpties(s: State, h: Header, hash: nat)
    requires WellFormed(s) && EntrySize(h) > s.maxSize
    ensures Added(s, h, hash).window == []
  {
    assert Total(Evict(s.window, 0)) >= ENTRY_OVERHEAD * |Evict(s.window, 0)|;
  }

  /** A field not yet known whose name is in the static table goes out to be indexed, and is entered if it fits. */
  lemma NewFieldIsEntered(s: State, h: Header, hash: Hash)
    requires WellFormed(s) && StaticTable.FullMatch(h) == 0 && KeyExists(h.key)
    requires var m := Matching(s.slots, s.tail, h, hash(h.key)); m.NotMatch? || m.index <= s.tail
    ensures var e := EncodeField(s, h, hash);
            && e.octets == LiteralOctets(INCREMENTAL, h)
            && e.state.window ==
               if EntrySize(h) <= s.maxSize then [h] + Evict(s.window, s.maxSize - EntrySize(h)) else []
  {
    hide KeyExists, StaticTable.FullMatch, Matching, Added, LiteralOctets, WellFormed, EncodeField, Evict;
    FreshIsAdded(s, h, hash);
    if EntrySize(h) <= s.maxSize {
      AddedFits(s, h, hash(h.key));
    } else {
      AddedEmpties(s, h, hash(h.key));
    }
  }

  lemma NewestNameIsIndexed(s: State, h: Header, hash: Hash)
    requires WellFormed(s) && StaticTable.FullMatch(h) == 0 && s.window != []
    requires Matching(s.slots, s.tail, h, hash(h.key)) == KeyMatch(Newest(s))
    ensures EncodeField(s, h, hash) == Emitted(s, LiteralWithNameIndexOctets(1 + COUNT, h.value))
  {
    hide StaticTable.FullMatch, Matching, LiteralWithNameIndexOctets, WellFormed;
    HpackSync.MaxIsUsable(s);
  }

  /** Its name is then sent as an index with another value, if neither slot of the name's had the name before. */
  lemma NameIsReused(s: State, h: Header, again: Header, hash: Hash)
    requires WellFormed(s) && KeyExists(h.key) && EntrySize(h) <= s.maxSize
    requires StaticTable.FullMatch(h) == 0 && StaticTable.FullMatch(again) == 0
    requires again.key == h.key && again.value != h.value
    requires s.slots[First(hash(h.key))].mdel.key != h.key && s.slots[Second(hash(h.key))].mdel.key != h.key
    ensures var once := EncodeField(s, h, hash).state;
            && WellFormed(once)
            && EncodeField(once, again, hash) == Emitted(once, LiteralWithNameIndexOctets(1 + COUNT, again.value))
  {
    hide KeyExists, StaticTable.FullMatch, LiteralWithNameIndexOctets, LiteralOctets, Matching, Recorded, WellFormed,
         EncodeField, Added, Evict, First, Second;
    HpackSync.MaxIsUsable(s);
    StaticKeys(h.key);
    var once := Added(s, h, hash(h.key));
    AddedFits(s, h, hash(h.key));
    OnlyNewIsFound(s.slots, s.tail, once.tail, h, again, hash(h.key), Newest(s) + 1);
    FreshIsAdded(s, h, hash);
    EncodeFieldWellFormed(s, h, hash);
    NewestNameIsIndexed(once, again, hash);
  }

  lemma OnlyNewIsFound(slots: seq<SendRecord>, before: nat, tail: nat, h: Header, again: Header, hash: nat, index: nat)
    requires |slots| == NUM_VALUES && h.key != [] && again.key == h.key && again.value != h.value && index > tail
    requires slots[First(hash)].mdel.key != h.key && slots[Second(hash)].mdel.key != h.key
    ensures Matching(slots, before, h, hash) == NotMatch
    ensures Matching(Recorded(slots, h, hash, index), tail, again, hash) == KeyMatch(index)
  {
  }

  /**
   * The new entry takes one of its name's two slots and no other changes; where both were taken by other fields
   * it is the one whose entry is older.
   */
  lemma OlderSlotIsGivenUp(slots: seq<SendRecord>, value: Header, hash: nat, index: nat)
    requires |slots| == NUM_VALUES
    ensures var r := Recorded(slots, value, hash, index);
            var (a, b) := (First(hash), Second(hash));
            && (r == slots[a := SendRecord(value, index)] || r == slots[b := SendRecord(value, index)])
            && (slots[a].mdel !in {value, EMPTY} && slots[b].mdel !in {value, EMPTY} ==>
                  (slots[a].index < slots[b].index ==> r[b] == slots[b]) &&
                  (slots[b].index < slots[a].index ==> r[a] == slots[a]))
  {
  }

  /** The slot names an entry that has not been evicted. */
  predicate Alive(s: State, slot: SendRecord)
  {
    slot.index > s.tail
  }

  /** The index on the wire of the entry a slot names. */
  function WireIndex(s: State, slot: SendRecord): nat
    requires Alive(s, slot) && slot.index <= Newest(s)
  {
    1 + COUNT + (Newest(s) - slot.index)
  }

  predicate NameAlive(s: State, slot: SendRecord, h: Header)
  {
    Alive(s, slot) && slot.mdel != EMPTY && slot.mdel.key == h.key
  }

  function Own(a: SendRecord, b: SendRecord, h: Header): SendRecord
  {
    if a.mdel == h then a else b
  }

  /** The older of the slots that hold the name alive. */
  function Older(s: State, a: SendRecord, b: SendRecord, h: Header): SendRecord
  {
    if !NameAlive(s, b, h) || (NameAlive(s, a, h) && a.index < b.index) then a else b
  }

  lemma MatchIs(s: State, h: Header, hash: nat)
    requires |s.slots| == NUM_VALUES && h != EMPTY
    ensures var (a, b) := (s.slots[First(hash)], s.slots[Second(hash)]);
            var (m, own) := (Matching(s.slots, s.tail, h, hash), Own(a, b, h));
            if own.mdel == h then m == FullMatch(own.index)
            else if NameAlive(s, a, h) || NameAlive(s, b, h) then m == KeyMatch(Older(s, a, b, h).index)
            else m.NotMatch? || (m.KeyMatch? && m.index <= s.tail)
  {
    hide First, Second;
  }

  lemma SentByMatch(s: State, h: Header, hash: Hash)
    requires WellFormed(s) && StaticTable.FullMatch(h) == 0
    ensures var (m, e) := (Matching(s.slots, s.tail, h, hash(h.key)), EncodeField(s, h, hash));
            if m.NotMatch? || m.index <= s.tail then
              e.octets == LiteralOctets(if KeyExists(h.key) then INCREMENTAL else WITHOUT_INDEXING, h) &&
              (!KeyExists(h.key) ==> e.state == s)
            else
              var index := 1 + COUNT + (Newest(s) - m.index);
              && m.index <= Newest(s)
              && e == Emitted(s, if m.FullMatch? then IndexedOctets(index)
                                 else LiteralWithNameIndexOctets(index, h.value))
  {
    hide KeyExists, StaticTable.FullMatch, LiteralWithNameIndexOctets, LiteralOctets, IndexedOctets, Added, Matching,
         WellFormed;
    MatchIsSound(s, h, hash(h.key));
  }

  /**
   * How a field outside the static table goes out: as an index exactly if a slot of its name's holds it alive;
   * otherwise, if none holds it at all, with the index of its name exactly if a slot holds that alive, the older of
   * two; otherwise whole, to be entered exactly if its name is in the static table.
   */
  lemma WhatIsSent(s: State, h: Header, hash: Hash)
    requires WellFormed(s) && |s.slots| == NUM_VALUES && StaticTable.FullMatch(h) == 0 && h != EMPTY
    ensures var (a, b) := (s.slots[First(hash(h.key))], s.slots[Second(hash(h.key))]);
            var (e, own, older) := (EncodeField(s, h, hash), Own(a, b, h), Older(s, a, b, h));
            if own.mdel == h && Alive(s, own) then
              own.index <= Newest(s) && e == Emitted(s, IndexedOctets(WireIndex(s, own)))
            else if own.mdel != h && (NameAlive(s, a, h) || NameAlive(s, b, h)) then
              older.index <= Newest(s) && e == Emitted(s, LiteralWithNameIndexOctets(WireIndex(s, older), h.value))
            else
              && e.octets == LiteralOctets(if KeyExists(h.key) then INCREMENTAL else WITHOUT_INDEXING, h)
              && (!KeyExists(h.key) ==> e.state == s)
  {
    hide KeyExists, StaticTable.FullMatch, LiteralWithNameIndexOctets, LiteralOctets, IndexedOctets, First, Second,
         Matching, EncodeField, WellFormed;
    MatchIs(s, h, hash(h.key));
    SentByMatch(s, h, hash);
  }

  // ---------------------------------------------------------------- only static names are remembered

  /** Every entry of the window has a name of the static table. */
  predicate StaticNames(s: State)
  {
    forall i :: 0 <= i < |s.window| ==> KeyExists(s.window[i].key)
  }

  lemma FieldKeepsStaticNames(s: State, h: Header, hash: Hash)
    requires WellFormed(s) && StaticNames(s)
    ensures StaticNames(EncodeField(s, h, hash).state)
  {
    hide KeyExists, StaticTable.FullMatch, Matching, Total, WellFormed;
    HpackSync.MaxIsUsable(s);
  }

  lemma {:induction false} BlockKeepsStaticNames(s: State, hs: seq<Header>, hash: Hash)
    requires WellFormed(s) && StaticNames(s)
    ensures StaticNames(EncodeBlock(s, hs, hash).state)
    decreases |hs|
  {
    hide WellFormed, StaticNames, EncodeField, EncodeBlock;
    EncodeBlockSteps(s, hs, hash);
    if hs != [] {
      FieldKeepsStaticNames(s, hs[0], hash);
      BlockKeepsStaticNames(EncodeField(s, hs[0], hash).state, hs[1..], hash);
    }
  }

  lemma MatchedNameIsStatic(s: State, h: Header, hash: nat)
    requires WellFormed(s) && StaticNames(s)
    ensures StaticTable.FullMatch(h) != 0 ==> KeyExists(h.key)
    ensures var m := Matching(s.slots, s.tail, h, hash); !m.NotMatch? && m.index > s.tail ==> KeyExists(h.key)
  {
    hide KeyExists, Matching, Total;
    MatchIsSound(s, h, hash);
    var n := StaticTable.FullMatch(h);
    if n != 0 {
      EntryHasKey(n);
    }
  }

  lemma EntryHasKey(i: nat)
    requires 1 <= i <= COUNT
    ensures KeyExists(Entry(i).key)
  {
    hide Name, Value;
    assert Entries()[i - 1].key == Entry(i).key;
  }

  /** So a field with any other name always goes out whole, to be left out of the table. */
  lemma OtherNamesGoOutWhole(s: State, h: Header, hash: Hash)
    requires WellFormed(s) && StaticNames(s) && !KeyExists(h.key)
    ensures EncodeField(s, h, hash) == Emitted(s, LiteralOctets(WITHOUT_INDEXING, h))
  {
    hide LiteralOctets, IndexedOctets, LiteralWithNameIndexOctets, KeyExists, Matching, StaticTable.FullMatch;
    MatchedNameIsStatic(s, h, hash(h.key));
  }
}
