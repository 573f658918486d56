/** Variable-length integers and byte arrays, written and read through recycled buffers. */
module VarInt {
  import opened Common

  type byte = x: nat | x < 256

  /* ---- Little-endian numbers ---- */

  /** 256 to the power k. */
  function Pow256(k: nat): nat {
    if k == 0 then 1 else 256 * Pow256(k - 1)
  }

  function ToLE(n: nat, k: nat): (s: seq<byte>)
    ensures |s| == k
  {
    if k == 0 then [] else [n % 256] + ToLE(n / 256, k - 1)
  }

  function FromLE(s: seq<byte>): nat {
    if s == [] then 0 else s[0] + 256 * FromLE(s[1..])
  }

  lemma {:induction false} LERoundTrip(n: nat, k: nat)
    requires n < Pow256(k)
    ensures FromLE(ToLE(n, k)) == n
  {
    if k > 0 {
      LERoundTrip(n / 256, k - 1);
      assert ToLE(n, k)[1..] == ToLE(n / 256, k - 1);
    }
  }

  lemma LowByte(low: byte, high: nat)
    ensures (low + 256 * high) % 256 == low && (low + 256 * high) / 256 == high
  {
  }

  lemma {:induction false} LEUnique(s: seq<byte>)
    ensures FromLE(s) < Pow256(|s|) && ToLE(FromLE(s), |s|) == s
  {
    if s != [] {
      LEUnique(s[1..]);
      LowByte(s[0], FromLE(s[1..]));
      assert s == [s[0]] + s[1..];
    }
  }

  lemma Powers()
    ensures Pow256(1) == 0x100 && Pow256(2) == 0x1_0000 && Pow256(4) == 0x1_0000_0000 && Pow256(8) == TWO64
  {
    assert Pow256(1) == 256 * Pow256(0);
    assert Pow256(2) == 256 * Pow256(1);
    assert Pow256(3) == 256 * Pow256(2);
    assert Pow256(4) == 256 * Pow256(3);
    assert Pow256(5) == 256 * Pow256(4);
    assert Pow256(6) == 256 * Pow256(5);
    assert Pow256(7) == 256 * Pow256(6);
    assert Pow256(8) == 256 * Pow256(7);
  }

  /* ---- The format ---- */

  /** How many bytes follow the first one. */
  function Payload(v: uint64): nat {
    if v < 0xfd then 0 else if v <= 0xffff then 2 else if v <= 0xffff_ffff then 4 else 8
  }

  function Discriminant(k: nat): byte {
    if k == 2 then 0xfd else if k == 4 then 0xfe else 0xff
  }

  /** The least value that needs a payload of `k` bytes. */
  function Least(k: nat): uint64 {
    if k == 2 then 0xfd else if k == 4 then 0x1_0000 else 0x1_0000_0000
  }

  function Encode(v: uint64): seq<byte> {
    if Payload(v) == 0 then [v] else [Discriminant(Payload(v))] + ToLE(v, Payload(v))
  }

  datatype Outcome<T> = Value(v: T) | EOF | UnexpectedEOF | NonCanonical | TooLarge

  /** What a full read of `n` bytes meets: nothing at all, too little, or enough. */
  function Shortage<T>(s: seq<byte>): Outcome<T> {
    if s == [] then EOF else UnexpectedEOF
  }

  function DecodePayload(s: seq<byte>, k: nat): (Outcome<uint64>, seq<byte>)
    requires k == 2 || k == 4 || k == 8
  {
    if |s| < k then (Shortage(s), [])
    else
      Powers();
      LEUnique(s[..k]);
      var v := FromLE(s[..k]);
      (if v < Least(k) then NonCanonical else Value(v), s[k..])
  }

  /** The outcome of reading an integer, and the bytes left in the reader. */
  function Decode(s: seq<byte>): (Outcome<uint64>, seq<byte>) {
    if s == [] then (EOF, [])
    else if s[0] == 0xff then DecodePayload(s[1..], 8)
    else if s[0] == 0xfe then DecodePayload(s[1..], 4)
    else if s[0] == 0xfd then DecodePayload(s[1..], 2)
    else (Value(s[0]), s[1..])
  }

  function SerializeSize(v: uint64): nat {
    if v < 0xfd then 1 else if v <= 0xffff then 3 else if v <= 0xffff_ffff then 5 else 9
  }

  lemma PayloadFits(v: uint64)
    requires Payload(v) > 0
    ensures Least(Payload(v)) <= v < Pow256(Payload(v))
  {
    Powers();
  }

  lemma PayloadDecodes(v: uint64, rest: seq<byte>)
    requires Payload(v) > 0
    ensures DecodePayload(ToLE(v, Payload(v)) + rest, Payload(v)) == (Value(v), rest)
  {
    var k := Payload(v);
    PayloadFits(v);
    LERoundTrip(v, k);
    var s := ToLE(v, k) + rest;
    assert s[..k] == ToLE(v, k) && s[k..] == rest;
  }

  lemma OneByteDecodes(v: uint64, rest: seq<byte>)
    requires v < 0xfd
    ensures Decode([v] + rest) == (Value(v), rest)
  {
    assert ([v] + rest)[1..] == rest;
  }

  lemma DiscriminantSelects(k: nat, s: seq<byte>)
    requires k == 2 || k == 4 || k == 8
    ensures Decode([Discriminant(k)] + s) == DecodePayload(s, k)
  {
    assert ([Discriminant(k)] + s)[1..] == s;
  }

  lemma LongDecodes(v: uint64, k: nat, payload: seq<byte>, rest: seq<byte>)
    requires (k == 2 || k == 4 || k == 8) && DecodePayload(payload + rest, k) == (Value(v), rest)
    ensures Decode([Discriminant(k)] + payload + rest) == (Value(v), rest)
  {
    DiscriminantSelects(k, payload + rest);
    assert [Discriminant(k)] + payload + rest == [Discriminant(k)] + (payload + rest);
  }

  lemma EncodedLength(v: uint64)
    ensures |Encode(v)| == SerializeSize(v)
  {
  }

  /** A written integer is read back, whatever follows it. */
  lemma EncodeDecode(v: uint64, rest: seq<byte>)
    ensures Decode(Encode(v) + rest) == (Value(v), rest)
    ensures |Encode(v)| == SerializeSize(v)
  {
    EncodedLength(v);
    if Payload(v) == 0 {
      OneByteDecodes(v, rest);
    } else {
      PayloadDecodes(v, rest);
      LongDecodes(v, Payload(v), ToLE(v, Payload(v)), rest);
    }
  }

  lemma PayloadIsCanonical(s: seq<byte>, k: nat)
    requires (k == 2 || k == 4 || k == 8) && DecodePayload(s, k).0.Value?
    ensures var (o, rest) := DecodePayload(s, k);
            Payload(o.v) == k && s == ToLE(o.v, k) + rest
  {
    Powers();
    LEUnique(s[..k]);
    assert s == s[..k] + s[k..];
  }

  /** Every accepted encoding is exactly what the writer would have written. */
  lemma DecodeIsCanonical(s: seq<byte>)
    requires Decode(s).0.Value?
    ensures s == Encode(Decode(s).0.v) + Decode(s).1
  {
    assert s == [s[0]] + s[1..];
    if s[0] >= 0xfd {
      var k := if s[0] == 0xff then 8 else if s[0] == 0xfe then 4 else 2;
      PayloadIsCanonical(s[1..], k);
      var (o, rest) := DecodePayload(s[1..], k);
      assert [s[0]] + (ToLE(o.v, k) + rest) == [s[0]] + ToLE(o.v, k) + rest;
    }
  }

  /** No encoding is a prefix of another. */
  lemma PrefixFree(a: uint64, b: uint64, x: seq<byte>, y: seq<byte>)
    requires Encode(a) + x == Encode(b) + y
    ensures a == b && x == y
  {
    EncodeDecode(a, x);
    EncodeDecode(b, y);
  }

  function Two(a: nat, b: nat): nat {
    a + 0x100 * b
  }

  function Four(a: nat, b: nat, c: nat, d: nat): nat {
    a + 0x100 * b + 0x1_0000 * c + 0x100_0000 * d
  }

  lemma TwoBytes(a: byte, b: byte)
    ensures FromLE([a, b]) == Two(a, b)
  {
    assert FromLE([a, b][1..]) == b;
  }

  lemma FourBytes(a: byte, b: byte, c: byte, d: byte)
    ensures FromLE([a, b, c, d]) == Four(a, b, c, d)
  {
    TwoBytes(c, d);
    assert [a, b, c, d][1..] == [b, c, d] && [b, c, d][1..] == [c, d];
  }

  lemma EightBytes(low: seq<byte>, high: seq<byte>)
    requires |low| == |high| == 4
    ensures FromLE(low + high) == FromLE(low) + 0x1_0000_0000 * FromLE(high)
  {
    Powers();
    LEJoin(low, high);
  }

  lemma {:induction false} LEJoin(low: seq<byte>, high: seq<byte>)
    ensures FromLE(low + high) == FromLE(low) + Pow256(|low|) * FromLE(high)
  {
    if low == [] {
      assert low + high == high;
    } else {
      LEJoin(low[1..], high);
      assert (low + high)[1..] == low[1..] + high;
      assert 256 * (Pow256(|low| - 1) * FromLE(high)) == Pow256(|low|) * FromLE(high);
    }
  }

  /** The number `v` is read and `rest` is left, unless `v` is below the least this form is for. */
  predicate ReadsAs(s: seq<byte>, v: nat, least: nat, rest: seq<byte>) {
    && Decode(s).1 == rest
    && if v < least then Decode(s).0 == NonCanonical else Decode(s).0.Value? && Decode(s).0.v == v
  }

  /** The first byte tells how many follow; the least significant comes first; what fits a shorter form is refused. */
  lemma WireFormat(low: seq<byte>, high: seq<byte>, rest: seq<byte>)
    requires |low| == |high| == 4
    ensures ReadsAs([0xfd, low[0], low[1]] + rest, Two(low[0], low[1]), 0xfd, rest)
    ensures ReadsAs([0xfe] + low + rest, Four(low[0], low[1], low[2], low[3]), 0x1_0000, rest)
    ensures var v := Four(low[0], low[1], low[2], low[3]) + 0x1_0000_0000 * Four(high[0], high[1], high[2], high[3]);
            ReadsAs([0xff] + (low + high) + rest, v, 0x1_0000_0000, rest)
  {
    TwoBytes(low[0], low[1]);
    FourBytes(low[0], low[1], low[2], low[3]);
    FourBytes(high[0], high[1], high[2], high[3]);
    EightBytes(low, high);
    assert [low[0], low[1], low[2], low[3]] == low && [high[0], high[1], high[2], high[3]] == high;
    assert [0xfd, low[0], low[1]] == [0xfd] + [low[0], low[1]];
    PayloadIsRead([low[0], low[1]], rest);
    PayloadIsRead(low, rest);
    PayloadIsRead(low + high, rest);
  }

  lemma PayloadIsRead(payload: seq<byte>, rest: seq<byte>)
    requires |payload| == 2 || |payload| == 4 || |payload| == 8
    ensures FromLE(payload) < TWO64
    ensures Decode([Discriminant(|payload|)] + payload + rest) ==
            (if FromLE(payload) < Least(|payload|) then NonCanonical else Value(FromLE(payload)), rest)
  {
    Powers();
    LEUnique(payload);
    DiscriminantSelects(|payload|, payload + rest);
    assert [Discriminant(|payload|)] + payload + rest == [Discriminant(|payload|)] + (payload + rest);
    assert (payload + rest)[..|payload|] == payload && (payload + rest)[|payload|..] == rest;
  }

  /** A broken-off encoding: an end of file, if at most its first byte is there, and an unexpected one otherwise. */
  lemma BrokenOff(v: uint64, s: seq<byte>)
    requires s < Encode(v)
    ensures Decode(s) == (if |s| <= 1 then EOF else UnexpectedEOF, [])
  {
    if s != [] {
      assert s[0] == Encode(v)[0] == Discriminant(Payload(v));
      assert s == [s[0]] + s[1..];
      DiscriminantSelects(Payload(v), s[1..]);
    }
  }

  /* ---- Byte arrays ---- */

  function EncodeBytes(b: seq<byte>): seq<byte>
    requires |b| < TWO64
  {
    Encode(|b|) + b
  }

  function DecodeBytes(s: seq<byte>, maxAllowed: nat): (Outcome<seq<byte>>, seq<byte>) {
    match Decode(s).0
    case Value(count) =>
      var rest := Decode(s).1;
      if count > maxAllowed then (TooLarge, rest)
      else if |rest| < count then (Shortage(rest), [])
      else (Value(rest[..count]), rest[count..])
    case EOF => (EOF, Decode(s).1)
    case UnexpectedEOF => (UnexpectedEOF, Decode(s).1)
    case NonCanonical => (NonCanonical, Decode(s).1)
    case TooLarge => (TooLarge, Decode(s).1)
  }

  lemma BytesRoundTrip(b: seq<byte>, maxAllowed: nat, rest: seq<byte>)
    requires |b| < TWO64
    ensures DecodeBytes(EncodeBytes(b) + rest, maxAllowed) ==
            if |b| <= maxAllowed then (Value(b), rest) else (TooLarge, b + rest)
  {
    assert EncodeBytes(b) + rest == Encode(|b|) + (b + rest);
    EncodeDecode(|b|, b + rest);
    assert (b + rest)[..|b|] == b && (b + rest)[|b|..] == rest;
  }

  function EncodeList(bs: seq<seq<byte>>): seq<byte>
    requires forall b | b in bs :: |b| < TWO64
  {
    if bs == [] then [] else EncodeBytes(bs[0]) + EncodeList(bs[1..])
  }

  function DecodeList(s: seq<byte>, n: nat, maxAllowed: nat): Option<(seq<seq<byte>>, seq<byte>)>
    decreases n
  {
    if n == 0 then Some(([], s))
    else
      var (o, rest) := DecodeBytes(s, maxAllowed);
      if !o.Value? then None
      else
        match DecodeList(rest, n - 1, maxAllowed)
        case None => None
        case Some((bs, left)) => Some(([o.v] + bs, left))
  }

  /** Arrays written one after the other are read back in order, when each is within the limit. */
  lemma {:induction false} ListRoundTrip(bs: seq<seq<byte>>, maxAllowed: nat, rest: seq<byte>)
    requires forall b | b in bs :: |b| < TWO64 && |b| <= maxAllowed
    ensures DecodeList(EncodeList(bs) + rest, |bs|, maxAllowed) == Some((bs, rest))
  {
    if bs == [] {
      assert [] + rest == rest;
    } else {
      assert bs == [bs[0]] + bs[1..];
      ListRoundTrip(bs[1..], maxAllowed, rest);
      assert EncodeList(bs) + rest == EncodeBytes(bs[0]) + (EncodeList(bs[1..]) + rest);
      BytesRoundTrip(bs[0], maxAllowed, EncodeList(bs[1..]) + rest);
    }
  }

  /* ---- Streams and buffers ---- */

  class Reader {
    var data: seq<byte>

    constructor (data: seq<byte>)
      ensures this.data == data
    {
      this.data := data;
    }

    /** Fills the first `n` bytes of the buffer, or reports how the data ran out. */
    method ReadFull(buf: array<byte>, n: nat) returns (failed: Option<Outcome<uint64>>)
      requires n <= buf.Length
      modifies this, buf
      ensures if |old(data)| < n then failed == Some(Shortage(old(data))) && data == []
              else failed == None && buf[..n] == old(data)[..n] && data == old(data)[n..]
    {
      var have := if |data| < n then |data| else n;
      var was := data;
      forall i | 0 <= i < have {
        buf[i] := was[i];
      }
      data := data[have..];
      if have < n {
        failed := Some(Shortage(was));
      } else {
        failed := None;
        assert buf[..n] == was[..n];
      }
    }
  }

  /** A writer with room for so many bytes; a write that does not fit fails and writes nothing. */
  class Writer {
    var out: seq<byte>
    var room: nat

    constructor (room: nat)
      ensures out == [] && this.room == room
    {
      out, this.room := [], room;
    }

    method Write(b: seq<byte>) returns (ok: bool)
      modifies this
      ensures ok <==> |b| <= old(room)
      ensures if ok then out == old(out) + b && room == old(room) - |b| else out == old(out) && room == old(room)
    {
      ok := |b| <= room;
      if ok {
        out, room := out + b, room - |b|;
      }
    }
  }

  /** Puts the `k` low bytes of `v` into the front of the buffer. */
  method FillLE(buf: array<byte>, v: nat, k: nat)
    requires k <= buf.Length
    modifies buf
    ensures buf[..k] == ToLE(v, k)
  {
    var n := v;
    for i := 0 to k
      invariant ToLE(v, k) == buf[..i] + ToLE(n, k - i)
    {
      ghost var done := buf[..i];
      buf[i] := n % 256;
      assert buf[..i + 1] == done + [n % 256];
      n := n / 256;
    }
  }

  const MAX_FREE: nat := 1024

  /** Buffers of eight bytes kept for reuse, with whatever their last user left in them. */
  class FreeList {
    var bufs: seq<array<byte>>

    ghost predicate Valid()
      reads this
    {
      && |bufs| <= 1024 && (forall i | 0 <= i < |bufs| :: bufs[i].Length == 8)
      && (forall i, j | 0 <= i < j < |bufs| :: bufs[i] != bufs[j])
    }

    /** The buffers in the list, as objects. */
    ghost function Held(): set<object>
      reads this
    {
      set i | 0 <= i < |bufs| :: bufs[i] as object
    }

    constructor ()
      ensures Valid() && bufs == []
    {
      bufs := [];
    }

    /** The buffer handed out is no longer in the list. */
    method Borrow() returns (buf: array<byte>)
      requires Valid()
      modifies this
      ensures Valid() && buf.Length == 8 && buf !in bufs
      ensures if old(bufs) == [] then fresh(buf) && bufs == [] else old(bufs) == [buf] + bufs
      ensures (buf in old(Held()) || fresh(buf)) && Held() <= old(Held())
    {
      if |bufs| > 0 {
        buf := bufs[0];
        bufs := bufs[1..];
      } else {
        buf := new byte[8];
      }
    }

    method Return(buf: array<byte>)
      requires Valid() && buf.Length == 8 && buf !in bufs
      modifies this
      ensures Valid() && Held() <= old(Held()) + {buf}
      ensures bufs == if |old(bufs)| < 1024 then old(bufs) + [buf] else old(bufs)
    {
      if |bufs| < MAX_FREE {
        bufs := bufs + [buf];
      }
    }

    /** Writes a number of `k` bytes: what a recycled buffer held before does not reach the output. */
    method PutUint(w: Writer, v: nat, k: nat) returns (ok: bool)
      requires Valid() && k <= 8
      modifies this, Held(), w
      ensures Valid() && fresh(Held() - old(Held()))
      ensures ok <==> k <= old(w.room)
      ensures if ok then w.out == old(w.out) + ToLE(v, k) && w.room == old(w.room) - k
              else w.out == old(w.out) && w.room == old(w.room)
    {
      var buf := Borrow();
      FillLE(buf, v, k);
      ok := w.Write(buf[..k]);
      Return(buf);
    }

    /** Reads a number of `k` bytes. */
    method GetUint(r: Reader, k: nat) returns (v: Outcome<uint64>)
      requires Valid() && 0 < k <= 8
      modifies this, Held(), r
      ensures Valid() && fresh(Held() - old(Held()))
      ensures if |old(r.data)| < k then v == Shortage(old(r.data)) && r.data == []
              else v.Value? && v.v == FromLE(old(r.data)[..k]) && r.data == old(r.data)[k..]
    {
      var buf := Borrow();
      var failed := r.ReadFull(buf, k);
      if failed.Some? {
        v := failed.value;
      } else {
        Powers();
        LEUnique(buf[..k]);
        PowerBound(k);
        v := Value(FromLE(buf[..k]));
      }
      Return(buf);
    }

    /** Writes an integer; a writer that is full gets a proper prefix of it at most. */
    method WriteVarInt(w: Writer, v: uint64) returns (ok: bool)
      requires Valid()
      modifies this, Held(), w
      ensures Valid() && fresh(Held() - old(Held()))
      ensures ok <==> SerializeSize(v) <= old(w.room)
      ensures ok ==> w.out == old(w.out) + Encode(v) && w.room == old(w.room) - SerializeSize(v)
      ensures !ok ==> w.out == old(w.out) || w.out == old(w.out) + Encode(v)[..1]
    {
      if v < 0xfd {
        ok := PutUint(w, v, 1);
        assert ToLE(v, 1) == [v];
        return;
      }
      var k := if v <= 0xffff then 2 else if v <= 0xffff_ffff then 4 else 8;
      ok := PutUint(w, Discriminant(k), 1);
      assert ToLE(Discriminant(k), 1) == [Discriminant(k)];
      if !ok {
        return;
      }
      ok := PutUint(w, v, k);
      assert ok ==> w.out == old(w.out) + ([Discriminant(k)] + ToLE(v, k));
    }

    /** Reads an integer. */
    method ReadVarInt(r: Reader) returns (v: Outcome<uint64>)
      requires Valid()
      modifies this, Held(), r
      ensures Valid() && fresh(Held() - old(Held()))
      ensures (v, r.data) == Decode(old(r.data))
    {
      var d := GetUint(r, 1);
      if !d.Value? {
        return d;
      }
      assert FromLE(old(r.data)[..1]) == old(r.data)[0];
      if d.v < 0xfd {
        return d;
      }
      var k := if d.v == 0xff then 8 else if d.v == 0xfe then 4 else 2;
      v := GetUint(r, k);
      if v.Value? && v.v < Least(k) {
        v := NonCanonical;
      }
    }

    method WriteVarBytes(w: Writer, b: seq<byte>) returns (ok: bool)
      requires Valid() && |b| < TWO64
      modifies this, Held(), w
      ensures Valid() && fresh(Held() - old(Held()))
      ensures ok <==> |EncodeBytes(b)| <= old(w.room)
      ensures ok ==> w.out == old(w.out) + EncodeBytes(b)
    {
      EncodeDecode(|b|, []);
      ok := WriteVarInt(w, |b|);
      if ok {
        ok := w.Write(b);
        assert ok ==> w.out == old(w.out) + (Encode(|b|) + b);
      }
    }

    method ReadVarBytes(r: Reader, maxAllowed: nat) returns (b: Outcome<seq<byte>>)
      requires Valid()
      modifies this, Held(), r
      ensures Valid() && fresh(Held() - old(Held()))
      ensures (b, r.data) == DecodeBytes(old(r.data), maxAllowed)
    {
      var count := ReadVarInt(r);
      match count
      case EOF => return EOF;
      case UnexpectedEOF => return UnexpectedEOF;
      case NonCanonical => return NonCanonical;
      case TooLarge => return TooLarge;
      case Value(n) =>
        if n > maxAllowed {
          return TooLarge;
        }
        var buf := new byte[n];
        var failed := r.ReadFull(buf, n);
        if failed.Some? {
          return if failed.value.EOF? then EOF else UnexpectedEOF;
        }
        assert buf[..] == buf[..n];
        return Value(buf[..]);
    }
  }

  lemma {:induction false} PowerBound(k: nat)
    requires k <= 8
    ensures Pow256(k) <= TWO64
    decreases 8 - k
  {
    Powers();
    if k < 8 {
      PowerBound(k + 1);
    }
  }
}
