/** Header fields and the size a table charges for one (section 4.1 of RFC 7541). */
module Headers {
  import opened Bytes

  datatype Header = Header(key: bytes, value: bytes)

  const ENTRY_OVERHEAD := 32

  function EntrySize(h: Header): (n: nat)
    ensures n >= ENTRY_OVERHEAD
  {
    ENTRY_OVERHEAD + |h.key| + |h.value|
  }
}

/** The static table of Appendix A of RFC 7541 and its two lookups (src/hpack/static_metadata.cc). */
module StaticTable {
  import opened Bytes
  import opened Headers
  import Lookups

  const COUNT := 61

  /** The names of the table, in index order; split so that each part is small to reason about. */
  function Name(i: nat): string
  {
    if i <= 14 then PseudoName(i)
    else if i <= 30 then NameTo30(i)
    else if i <= 46 then NameTo46(i)
    else NameTo61(i)
  }

  function PseudoName(i: nat): string
  {
    match i
    case 1 => ":authority"
    case 2 => ":method"
    case 3 => ":method"
    case 4 => ":path"
    case 5 => ":path"
    case 6 => ":scheme"
    case 7 => ":scheme"
    case 8 => ":status"
    case 9 => ":status"
    case 10 => ":status"
    case 11 => ":status"
    case 12 => ":status"
    case 13 => ":status"
    case _ => ":status"
  }

  function NameTo30(i: nat): string
  {
    match i
    case 15 => "accept-charset"
    case 16 => "accept-encoding"
    case 17 => "accept-language"
    case 18 => "accept-ranges"
    case 19 => "accept"
    case 20 => "access-control-allow-origin"
    case 21 => "age"
    case 22 => "allow"
    case 23 => "authorization"
    case 24 => "cache-control"
    case 25 => "content-disposition"
    case 26 => "content-encoding"
    case 27 => "content-language"
    case 28 => "content-length"
    case 29 => "content-location"
    case _ => "content-range"
  }

  function NameTo46(i: nat): string
  {
    match i
    case 31 => "content-type"
    case 32 => "cookie"
    case 33 => "date"
    case 34 => "etag"
    case 35 => "expect"
    case 36 => "expires"
    case 37 => "from"
    case 38 => "host"
    case 39 => "if-match"
    case 40 => "if-modified-since"
    case 41 => "if-none-match"
    case 42 => "if-range"
    case 43 => "if-unmodified-since"
    case 44 => "last-modified"
    case 45 => "link"
    case _ => "location"
  }

  function NameTo61(i: nat): string
  {
    match i
    case 47 => "max-forwards"
    case 48 => "proxy-authenticate"
    case 49 => "proxy-authorization"
    case 50 => "range"
    case 51 => "referer"
    case 52 => "refresh"
    case 53 => "retry-after"
    case 54 => "server"
    case 55 => "set-cookie"
    case 56 => "strict-transport-security"
    case 57 => "transfer-encoding"
    case 58 => "user-agent"
    case 59 => "vary"
    case 60 => "via"
    case _ => "www-authenticate"
  }

  function Value(i: nat): string
  {
    match i
    case 2 => "GET"
    case 3 => "POST"
    case 4 => "/"
    case 5 => "/index.html"
    case 6 => "http"
    case 7 => "https"
    case 8 => "200"
    case 9 => "204"
    case 10 => "206"
    case 11 => "304"
    case 12 => "400"
    case 13 => "404"
    case 14 => "500"
    case 16 => "gzip, deflate"
    case _ => ""
  }

  function Entries(): (r: seq<Header>)
    ensures |r| == COUNT
  {
    seq(COUNT, i requires 0 <= i < COUNT => Header(Ascii(Name(i + 1)), Ascii(Value(i + 1))))
  }

  /** The entry at a 1-based index. */
  function Entry(i: nat): Header
    requires 1 <= i <= COUNT
  {
    Entries()[i - 1]
  }

  /** check_key_exists */
  predicate KeyExists(key: bytes)
  {
    Lookups.HasKey(Entries(), |Entries()|, key)
  }

  /** full_match_static_mdelem_index: a 1-based index, or 0. */
  function FullMatch(h: Header): (r: nat)
    ensures r == 0 ==> h !in Entries()
    ensures r != 0 ==> r <= COUNT && Entry(r) == h
  {
    Lookups.FirstMatch(Entries(), h, 0)
  }

  /** The least size of a field with a name of the table that is not itself in the table. */
  const SMALLEST_NEW := 36

  /** The names of three letters have no value in the table, so a new field of such a name has one. */
  lemma NewFieldIsLarge(h: Header)
    requires KeyExists(h.key) && FullMatch(h) == 0
    ensures EntrySize(h) >= SMALLEST_NEW
  {
    hide Name, Value, FullMatch;
    var i :| 0 <= i < COUNT && Entries()[i].key == h.key;
    ShortNames(i + 1);
    assert Entries()[i] == Header(Ascii(Name(i + 1)), Ascii(Value(i + 1)));
    assert h != Entries()[i] by { assert Entries()[i] in Entries(); }
  }

  lemma ShortNames(i: nat)
    ensures |Name(i)| >= 3 && (|Name(i)| == 3 ==> Value(i) == "")
  {
    NameEnding(i);
    if i <= 14 {
      LengthsPseudo(i);
    } else if i <= 30 {
      LengthsTo30(i);
    }
  }

  lemma LengthsPseudo(i: nat)
    ensures |PseudoName(i)| > 3
  {
  }

  lemma LengthsTo30(i: nat)
    ensures |NameTo30(i)| == 3 ==> i != 16
  {
  }

  /** A field of exactly the size asked for that the table does not hold, although it holds its name. */
  function NewField(size: nat): (h: Header)
    requires size >= SMALLEST_NEW
    ensures EntrySize(h) == size
  {
    Header(Ascii("age"), seq(size - SMALLEST_NEW + 1, _ => 0x61))
  }

  lemma NewFieldIsNew(size: nat)
    requires size >= SMALLEST_NEW
    ensures KeyExists(NewField(size).key) && FullMatch(NewField(size)) == 0
  {
    hide Name, Value;
    var h := NewField(size);
    assert Entries()[20].key == h.key by { AgeIsThere(); }
    var n := FullMatch(h);
    if n != 0 {
      ShortNames(n);
    }
  }

  lemma AgeIsThere()
    ensures Entries()[20].key == Ascii("age")
  {
  }

  /** A name of five octets or more that ends in "-bin" (grpc_key_is_binary_header). */
  predicate IsBinaryKey(key: bytes)
  {
    |key| >= 5 && key[|key| - 4..] == Ascii("-bin")
  }

  lemma StaticKeys(key: bytes)
    requires KeyExists(key)
    ensures key != [] && !IsBinaryKey(key)
  {
    hide Name, Value, PlainEnding, IsBinaryKey;
    var i :| 0 <= i < COUNT && Entries()[i].key == key;
    var name := Name(i + 1);
    NameEnding(i + 1);
    PlainIsNotBinary(name, Ascii(name));
  }

  lemma PlainIsNotBinary(name: string, key: bytes)
    requires PlainEnding(name) && key == Ascii(name)
    ensures key != [] && !IsBinaryKey(key)
  {
    assert Ascii("-bin")[1] == 'b' as int;
    if |key| >= 5 {
      assert key[|key| - 4..][1] == key[|key| - 3];
    }
  }

  /** Enough of a name's end to tell it from "-bin". */
  predicate PlainEnding(n: string)
  {
    && |n| >= 3
    && n[|n| - 3] < 256 as char
    && n[|n| - 3] != 'b'
  }

  lemma NameEnding(i: nat)
    ensures PlainEnding(Name(i))
  {
    if i <= 14 {
      EndingsPseudo(i);
    } else if i <= 30 {
      EndingsTo30(i);
    } else if i <= 46 {
      EndingsTo46(i);
    } else {
      EndingsTo61(i);
    }
  }

  lemma EndingsPseudo(i: nat)
    ensures PlainEnding(PseudoName(i))
  {
  }

  lemma EndingsTo30(i: nat)
    ensures PlainEnding(NameTo30(i))
  {
  }

  lemma EndingsTo46(i: nat)
    ensures PlainEnding(NameTo46(i))
  {
  }

  lemma EndingsTo61(i: nat)
    ensures PlainEnding(NameTo61(i))
  {
  }
}

/** Searching a list of header fields, and the hash map and set that stand for the search. */
module Lookups {
  import opened Bytes
  import opened Headers

  predicate HasKey(table: seq<Header>, n: nat, key: bytes)
    requires n <= |table|
  {
    exists i :: 0 <= i < n && table[i].key == key
  }

  /** One more than the least position at or after `from` that holds `h`, or 0. */
  function FirstMatch(table: seq<Header>, h: Header, from: nat): (r: nat)
    requires from <= |table|
    ensures r == 0 ==> forall i :: from <= i < |table| ==> table[i] != h
    ensures r != 0 ==> from < r <= |table| && table[r - 1] == h && forall i :: from <= i < r - 1 ==> table[i] != h
    decreases |table| - from
  {
    if from == |table| then 0 else if table[from] == h then from + 1 else FirstMatch(table, h, from + 1)
  }

  /** The loop of init_static_metadata_context; emplace keeps the first of two equal entries. */
  method Build(table: seq<Header>) returns (full: map<Header, nat>, keys: set<bytes>)
    ensures forall h :: (if h in full then full[h] else 0) == FirstMatch(table, h, 0)
    ensures forall key :: key in keys <==> HasKey(table, |table|, key)
  {
    full, keys := map[], {};
    var i := 0;
    while i < |table|
      invariant i <= |table|
      invariant forall h :: h in full ==> 1 <= full[h] <= i && FirstMatch(table, h, 0) == full[h]
      invariant forall j :: 0 <= j < i ==> table[j] in full
      invariant forall key :: key in keys <==> HasKey(table, i, key)
    {
      var md := table[i];
      ghost var before := keys;
      if md !in full {
        full := full[md := i + 1];
      }
      keys := keys + {md.key};
      forall key ensures key in keys <==> HasKey(table, i + 1, key) {
        if key == md.key {
          assert table[i].key == key;
        } else {
          assert key in keys <==> key in before;
          assert HasKey(table, i + 1, key) <==> HasKey(table, i, key);
        }
      }
      i := i + 1;
    }
  }
}
