/**
 * slice_buffer (src/utils/slice_buffer.cc): slices in a vector whose first `start` are already gone.
 * Whatever it does to the vector, it behaves as one octet string.
 */
module SliceBuffer {
  import opened Buffers
  import opened Bytes

  function Min(a: nat, b: nat): nat
  {
    if a < b then a else b
  }

  class SliceBuffer {
    var vs: seq<bytes>
    var start: nat
    var length: nat

    ghost predicate Valid()
      reads this
    {
      && start <= |vs| && length == |Concat(vs[start..])|
      && forall i :: start <= i < |vs| ==> vs[i] != []
    }

    ghost function Contents(): bytes
      requires Valid()
      reads this
    {
      Concat(vs[start..])
    }

    constructor ()
      ensures Valid() && Contents() == []
    {
      vs, start, length := [], 0, 0;
    }

    method Merge() returns (s: bytes)
      requires Valid()
      ensures s == Contents()
    {
      if |vs| - start == 0 {
        return [];
      }
      if |vs| - start == 1 {
        assert vs[start..] == [vs[start]] + vs[start + 1..];
        assert Concat(vs[start + 1..]) == [];
        return vs[start];
      }
      var buf := new byte[length](_ => 0);
      var at := 0;
      var i := start;
      while i < |vs|
        invariant start <= i <= |vs| && 0 <= at <= buf.Length
        invariant buf[..at] + Concat(vs[i..]) == Contents()
      {
        assert vs[i..] == [vs[i]] + vs[i + 1..];
        assert |Contents()| == length && at + |vs[i]| <= length;
        Copy(buf, at, vs[i]);
        at := at + |vs[i]|;
        i := i + 1;
      }
      assert vs[i..] == [];
      s := buf[..];
      assert s == buf[..at];
    }

    /** add_slice; an empty slice leaves no trace. */
    method AddSlice(s: bytes)
      requires Valid()
      modifies this
      ensures Valid() && Contents() == old(Contents()) + s
    {
      if |s| != 0 {
        ConcatSnoc(vs[start..], s);
        vs := vs + [s];
        assert vs[start..] == old(vs[start..]) + [s];
        length := length + |s|;
      }
    }

    method GetHeader(len: nat) returns (s: bytes)
      requires Valid()
      ensures s == if len <= |Contents()| then Contents()[..len] else []
    {
      if len == 0 || length < len {
        return [];
      }
      var buf := new byte[len](_ => 0);
      var n := CopyToBuffer(buf, len);
      assert buf[..] == buf[..n];
      s := buf[..];
    }

    /** move_header: drops exactly `len` octets, or nothing if there are not that many. */
    method MoveHeader(len: nat) returns (ok: bool)
      requires Valid()
      modifies this
      ensures Valid()
      ensures ok <==> len <= |old(Contents())|
      ensures Contents() == if ok then old(Contents())[len..] else old(Contents())
    {
      if length < len {
        return false;
      }
      if len == 0 {
        return true;
      }
      var remaining: nat := len;
      ghost var all := Contents();
      while remaining > 0 && start < |vs|
        invariant Valid() && remaining <= length && remaining <= len
        invariant Contents() == all[len - remaining..]
        decreases |vs| - start, remaining
      {
        var frontSize := |vs[start]|;
        assert vs[start..] == [vs[start]] + vs[start + 1..];
        ghost var rest := vs[start + 1..];
        ghost var front := vs[start];
        ghost var now := Contents();
        assert now == front + Concat(rest);
        if frontSize > remaining {
          vs := vs[start := vs[start][remaining..]];
          assert vs[start..] == [front[remaining..]] + rest;
          assert Concat(vs[start..]) == now[remaining..];
          length := length - remaining;
          remaining := 0;
        } else {
          assert Concat(rest) == now[frontSize..];
          length := length - frontSize;
          remaining := remaining - frontSize;
          start := start + 1;
        }
      }
      if start == |vs| {
        assert Contents() == [];
      }
      Compact();
      return true;
    }

    /** copy_to_buffer in a release build: as many octets as there are, up to `len`. */
    method CopyToBuffer(buffer: array<byte>, len: nat) returns (pos: nat)
      requires Valid() && len <= buffer.Length
      modifies buffer
      ensures pos == Min(len, |Contents()|)
      ensures buffer[..pos] == Contents()[..pos] && buffer[pos..] == old(buffer[pos..])
    {
      var left: nat := len;
      pos := 0;
      var i := start;
      ghost var all := Contents();
      while i < |vs| && left != 0
        invariant start <= i <= |vs| && pos + left == len && pos <= |all|
        invariant buffer[..pos] == all[..pos] && buffer[pos..] == old(buffer[pos..])
        invariant left > 0 ==> Concat(vs[i..]) == all[pos..]
        decreases |vs| - i
      {
        assert vs[i..] == [vs[i]] + vs[i + 1..];
        var n := Min(left, |vs[i]|);
        Copy(buffer, pos, vs[i][..n]);
        assert all[pos..] == vs[i] + Concat(vs[i + 1..]);
        assert all[..pos + n] == all[..pos] + vs[i][..n];
        assert all[pos + n..] == all[pos..][n..];
        left := left - n;
        pos := pos + n;
        i := i + 1;
      }
    }

    method PopFront()
      requires Valid()
      modifies this
      ensures Valid()
      ensures Contents() == if old(start < |vs|) then old(Contents())[|old(vs[start])|..] else old(Contents())
    {
      if start < |vs| {
        assert vs[start..] == [vs[start]] + vs[start + 1..];
        length := length - |vs[start]|;
        start := start + 1;
        Compact();
      }
    }

    method PopBack()
      requires Valid()
      modifies this
      ensures Valid()
      ensures if old(start < |vs|) then Contents() + old(vs[|vs| - 1]) == old(Contents())
              else Contents() == old(Contents())
    {
      if start < |vs| {
        ghost var init, last := vs[start..|vs| - 1], vs[|vs| - 1];
        assert vs[start..] == init + [last];
        ConcatSnoc(init, last);
        length := length - |vs[|vs| - 1]|;
        vs := vs[..|vs| - 1];
        assert vs[start..] == init;
      }
    }

    /** _compact: the dead prefix goes, the contents stay. */
    method Compact()
      requires Valid()
      modifies this`vs, this`start
      ensures Valid() && Contents() == old(Contents()) && vs[start..] == old(vs[start..])
    {
      if start > 0 && (start >= |vs| || start > |vs| / 2) {
        vs := vs[start..];
        start := 0;
        assert vs[start..] == old(vs[start..]);
      }
    }
  }

  // ---------------------------------------------------------------- append_data and ReadData

  /** append_data and ReadData as the application sees them. */
  datatype DataOp = Append(data: bytes) | Read(size: nat)

  function Remaining(c: bytes, ops: seq<DataOp>): bytes
    decreases |ops|
  {
    if ops == [] then c
    else match ops[0]
         case Append(d) => Remaining(c + d, ops[1..])
         case Read(n) => Remaining(c[Min(n, |c|)..], ops[1..])
  }

  function ReadOut(c: bytes, ops: seq<DataOp>): bytes
    decreases |ops|
  {
    if ops == [] then []
    else match ops[0]
         case Append(d) => ReadOut(c + d, ops[1..])
         case Read(n) => c[..Min(n, |c|)] + ReadOut(c[Min(n, |c|)..], ops[1..])
  }

  function Appended(ops: seq<DataOp>): bytes
  {
    if ops == [] then [] else (if ops[0].Append? then ops[0].data else []) + Appended(ops[1..])
  }

  /** Nothing is lost, repeated or reordered: what went in is what came out and then what is left. */
  lemma {:induction false} DataConserved(c: bytes, ops: seq<DataOp>)
    ensures c + Appended(ops) == ReadOut(c, ops) + Remaining(c, ops)
    decreases |ops|
  {
    if ops != [] {
      match ops[0]
      case Append(d) =>
        DataConserved(c + d, ops[1..]);
        assert c + (d + Appended(ops[1..])) == c + d + Appended(ops[1..]);
      case Read(n) =>
        var k := Min(n, |c|);
        DataConserved(c[k..], ops[1..]);
        var (later, out, left) := (Appended(ops[1..]), ReadOut(c[k..], ops[1..]), Remaining(c[k..], ops[1..]));
        assert [] + later == later;
        TakenOff(c, k, later, out, left);
    }
  }

  lemma TakenOff(c: bytes, k: nat, later: bytes, out: bytes, left: bytes)
    requires k <= |c| && c[k..] + later == out + left
    ensures c + later == c[..k] + out + left
  {
    assert c + later == c[..k] + (c[k..] + later);
    assert c[..k] + (out + left) == c[..k] + out + left;
  }

  /** ReadData on a stream's buffer: copy_to_buffer and then move_header of what was copied. */
  method ReadData(cache: SliceBuffer, buffer: array<byte>, size: nat) returns (copied: nat)
    requires cache.Valid() && size <= buffer.Length
    modifies cache, buffer
    ensures cache.Valid()
    ensures copied == Min(size, |old(cache.Contents())|)
    ensures buffer[..copied] == old(cache.Contents())[..copied]
    ensures cache.Contents() == old(cache.Contents())[copied..]
  {
    copied := cache.CopyToBuffer(buffer, size);
    var ok := cache.MoveHeader(copied);
  }
}
