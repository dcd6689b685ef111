/** The kernel's byte ring, as the modem modules use it: a bounded circular array whose claims are contiguous. */
module RingBuf {
  import opened Crc

  /** The `len` octets from `head` on, wrapping around. */
  function Circular(s: seq<byte>, head: nat, len: nat): (r: seq<byte>)
    requires head < |s| && len <= |s|
    ensures |r| == len
  {
    if head + len <= |s| then s[head..head + len] else s[head..] + s[..head + len - |s|]
  }

  function Wrap(i: nat, size: nat): nat {
    if i < size then i else i - size
  }

  lemma CircularAt(s: seq<byte>, head: nat, len: nat, i: nat)
    requires head < |s| && len <= |s| && i < len
    ensures Circular(s, head, len)[i] == s[Wrap(head + i, |s|)]
  {
  }

  lemma CircularPut(s: seq<byte>, head: nat, len: nat, b: byte)
    requires head < |s| && len < |s|
    ensures Circular(s[Wrap(head + len, |s|) := b], head, len + 1) == Circular(s, head, len) + [b]
  {
    var t := s[Wrap(head + len, |s|) := b];
    forall i | 0 <= i <= len ensures Circular(t, head, len + 1)[i] == (Circular(s, head, len) + [b])[i] {
      CircularAt(t, head, len + 1, i);
      if i < len {
        CircularAt(s, head, len, i);
      }
    }
  }

  lemma CircularDrop(s: seq<byte>, head: nat, len: nat, n: nat)
    requires head < |s| && n <= len <= |s|
    ensures Wrap(head + n, |s|) < |s|
    ensures Circular(s, Wrap(head + n, |s|), len - n) == Circular(s, head, len)[n..]
  {
    if |s| <= head + n {
      assert Circular(s, head, len)[n..] == s[..head + len - |s|][head + n - |s|..];
    } else if |s| < head + len {
      assert Circular(s, head, len)[n..] == s[head..][n..] + s[..head + len - |s|];
      assert s[head..][n..] == s[head + n..];
    } else {
      assert Circular(s, head, len)[n..] == s[head + n..head + len];
    }
  }

  class Ring {
    const buf: array<byte>
    var head: nat
    var len: nat

    ghost predicate Valid()
      reads this
    {
      head < buf.Length && len <= buf.Length
    }

    ghost function Contents(): (s: seq<byte>)
      requires Valid()
      reads this, buf
      ensures |s| == len
    {
      Circular(buf[..], head, len)
    }

    constructor (size: nat)
      requires 0 < size
      ensures Valid() && Contents() == [] && buf.Length == size && fresh(buf)
    {
      buf := new byte[size];
      head, len := 0, 0;
    }

    function Space(): nat
      requires Valid()
      reads this
    {
      buf.Length - len
    }

    method Reset()
      requires Valid()
      modifies this
      ensures Valid() && Contents() == []
    {
      head, len := 0, 0;
    }

    method PutByte(b: byte)
      requires Valid() && 0 < Space()
      modifies this`len, buf
      ensures Valid() && Contents() == old(Contents()) + [b]
    {
      CircularPut(buf[..], head, len, b);
      buf[Wrap(head + len, buf.Length)] := b;
      len := len + 1;
    }

    /** Stores as much as there is space for. */
    method Put(data: seq<byte>) returns (n: nat)
      requires Valid()
      modifies this`len, buf
      ensures Valid() && n == (if |data| <= old(Space()) then |data| else old(Space()))
      ensures Contents() == old(Contents()) + data[..n]
    {
      n := 0;
      while n < |data| && 0 < Space()
        invariant Valid() && n <= |data| && len == old(len) + n && head == old(head)
        invariant Contents() == old(Contents()) + data[..n]
      {
        PutByte(data[n]);
        assert data[..n + 1] == data[..n] + [data[n]];
        n := n + 1;
      }
    }

    /** The room up to the end of the array, or up to the oldest octet behind the wrap. */
    method PutClaim() returns (room: nat)
      requires Valid()
      ensures room <= Space() && (room == 0 <==> Space() == 0)
    {
      var tail := Wrap(head + len, buf.Length);
      room := if tail < head || len == buf.Length then Space() else buf.Length - tail;
    }

    /** The octets up to the end of the array. */
    method GetClaim() returns (claimed: seq<byte>)
      requires Valid()
      ensures claimed <= Contents() && (claimed == [] <==> Contents() == [])
    {
      var n := if head + len <= buf.Length then len else buf.Length - head;
      claimed := buf[head..head + n];
    }

    method GetFinish(n: nat)
      requires Valid() && n <= len
      modifies this
      ensures Valid() && Contents() == old(Contents())[n..]
    {
      CircularDrop(buf[..], head, len, n);
      head, len := Wrap(head + n, buf.Length), len - n;
    }

    /** Removes up to `size` of the oldest octets. */
    method Get(size: nat) returns (data: seq<byte>)
      requires Valid()
      modifies this
      ensures Valid() && |data| == (if size <= old(len) then size else old(len))
      ensures data == old(Contents())[..|data|] && Contents() == old(Contents())[|data|..]
    {
      data := [];
      while |data| < size && 0 < len
        invariant Valid() && |data| <= size && |data| <= old(len) && len == old(len) - |data|
        invariant data == old(Contents())[..|data|] && Contents() == old(Contents())[|data|..]
      {
        ghost var before := Contents();
        CircularAt(buf[..], head, len, 0);
        data := data + [buf[head]];
        GetFinish(1);
        assert before == old(Contents())[|data| - 1..];
      }
    }
  }
}
