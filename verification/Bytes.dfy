/** Bytes and the big-endian fields that the wire formats are made of. */
module Bytes {

  datatype Option<+T> = None | Some(value: T)

  type Byte = b: int | 0 <= b < 0x100
  type U16 = n: int | 0 <= n < 0x1_0000
  type U32 = n: int | 0 <= n < 0x1_0000_0000

  function Put16(n: U16): (bs: seq<Byte>)
    ensures |bs| == 2 && Get16(bs, 0) == n
  {
    [n / 0x100, n % 0x100]
  }

  function Get16(bs: seq<Byte>, i: nat): (n: U16)
    requires i + 2 <= |bs|
  {
    bs[i] as int * 0x100 + bs[i + 1]
  }

  function Put32(n: U32): (bs: seq<Byte>)
    ensures |bs| == 4 && Get32(bs, 0) == n
  {
    Put16(n / 0x1_0000) + Put16(n % 0x1_0000)
  }

  function Get32(bs: seq<Byte>, i: nat): (n: U32)
    requires i + 4 <= |bs|
  {
    Get16(bs, i) as int * 0x1_0000 + Get16(bs, i + 2)
  }

  // ----- pieces of a message -----

  /** The piece stands at this position of the message. */
  ghost predicate Holds(msg: seq<Byte>, pos: nat, piece: seq<Byte>) {
    pos + |piece| <= |msg| && forall i :: 0 <= i < |piece| ==> msg[pos + i] == piece[i]
  }

  lemma HoldsParts(msg: seq<Byte>, pos: nat, a: seq<Byte>, b: seq<Byte>)
    requires Holds(msg, pos, a + b)
    ensures Holds(msg, pos, a) && Holds(msg, pos + |a|, b)
  {
    forall i | 0 <= i < |a| ensures msg[pos + i] == a[i] {
      assert (a + b)[i] == a[i];
    }
    forall i | 0 <= i < |b| ensures msg[pos + |a| + i] == b[i] {
      assert (a + b)[|a| + i] == b[i];
    }
  }

  lemma HoldsMiddle(a: seq<Byte>, b: seq<Byte>, c: seq<Byte>)
    ensures Holds(a + b + c, |a|, b)
  {
  }

  lemma HoldsSlice(msg: seq<Byte>, pos: nat, piece: seq<Byte>)
    requires Holds(msg, pos, piece)
    ensures msg[pos..pos + |piece|] == piece
  {
  }

  lemma ByteAt(msg: seq<Byte>, pos: nat, piece: seq<Byte>, i: nat)
    requires Holds(msg, pos, piece) && i < |piece|
    ensures msg[pos + i] == piece[i]
  {
  }

  lemma Get16At(msg: seq<Byte>, pos: nat, piece: seq<Byte>, i: nat)
    requires Holds(msg, pos, piece) && i + 2 <= |piece|
    ensures Get16(msg, pos + i) == Get16(piece, i)
  {
    ByteAt(msg, pos, piece, i);
    ByteAt(msg, pos, piece, i + 1);
  }

  lemma Get32At(msg: seq<Byte>, pos: nat, piece: seq<Byte>, i: nat)
    requires Holds(msg, pos, piece) && i + 4 <= |piece|
    ensures Get32(msg, pos + i) == Get32(piece, i)
  {
    Get16At(msg, pos, piece, i);
    Get16At(msg, pos, piece, i + 2);
  }
}
