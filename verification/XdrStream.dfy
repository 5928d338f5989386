/** The generated codecs on a stream over a fixed piece of memory: a cursor that moves, bytes and
    structure fields that are written in place. */
module XdrStream {
  import opened XdrSpec

  /** `after` is `before` with `bytes` written at position `at`. */
  ghost predicate Wrote(before: seq<byte>, after: seq<byte>, at: nat, bytes: seq<byte>) {
    at + |bytes| <= |before| && after == before[..at] + bytes + before[at + |bytes|..]
  }

  lemma WroteBoth(a: seq<byte>, b: seq<byte>, c: seq<byte>, at: nat, x: seq<byte>, y: seq<byte>)
    requires Wrote(a, b, at, x) && Wrote(b, c, at + |x|, y)
    ensures Wrote(a, c, at, x + y)
  {
    assert b[..at + |x|] == a[..at] + x;
    assert b[at + |x| + |y|..] == a[at + |x| + |y|..];
    assert a[..at] + x + y == a[..at] + (x + y);
  }

  /** The i words of b from `start` on are the chars cs. */
  ghost predicate Decoded(b: seq<byte>, start: nat, i: nat, cs: seq<int8>) {
    start + UNIT * i <= |b| && DecChars(b[start..start + UNIT * i], i) == cs
  }

  /** Decoding one word more. */
  lemma DecSnoc(b: seq<byte>, start: nat, i: nat, cs: seq<int8>, c: int8)
    requires start + UNIT * (i + 1) <= |b| && Decoded(b, start, i, cs)
    requires c == Narrow(DecInt(b[start + UNIT * i..start + UNIT * i + UNIT]))
    ensures Decoded(b, start, i + 1, cs + [c])
  {
    var at := start + UNIT * i;
    assert b[start..at + UNIT][..UNIT * i] == b[start..at];
    assert b[start..at + UNIT][UNIT * i..] == b[at..at + UNIT];
  }

  class RequestStruct {
    var clientId: int32
    const requestType: array<int8>
    const details: array<int8>

    ghost predicate Valid() {
      requestType.Length == TYPE_LEN && details.Length == DETAILS_LEN && requestType != details
    }

    ghost function Abs(): Request
      reads this, requestType, details
    {
      Request(clientId, requestType[..], details[..])
    }

    constructor ()
      ensures Valid() && fresh(requestType) && fresh(details)
    {
      clientId := 0;
      requestType := new int8[TYPE_LEN](_ => 0);
      details := new int8[DETAILS_LEN](_ => 0);
    }
  }

  class ResponseStruct {
    var clientId: int32
    var ticketNumber: int32
    var queuePosition: int32
    const status: array<int8>

    ghost predicate Valid() { status.Length == STATUS_LEN }

    ghost function Abs(): Response
      reads this, status
    {
      Response(clientId, ticketNumber, queuePosition, status[..])
    }

    constructor ()
      ensures Valid() && fresh(status)
    {
      clientId, ticketNumber, queuePosition := 0, 0, 0;
      status := new int8[STATUS_LEN](_ => 0);
    }
  }

  /** `inlines` says whether x_inline hands out pointers into the memory (it need not: alignment, records). */
  class Stream {
    const buf: array<byte>
    const inlines: bool
    var pos: nat

    ghost predicate Valid()
      reads this
    {
      pos <= buf.Length
    }

    ghost function Left(): nat
      requires Valid()
      reads this
    {
      buf.Length - pos
    }

    constructor (memory: array<byte>, inlines: bool)
      ensures Valid() && pos == 0 && buf == memory && this.inlines == inlines
    {
      buf, pos, this.inlines := memory, 0, inlines;
    }

    /** XDR_INLINE: the position of n bytes that the cursor has passed, or -1. */
    method Inline(n: nat) returns (at: int)
      requires Valid()
      modifies this
      ensures Valid()
      ensures at == if inlines && n <= old(Left()) then old(pos) else -1
      ensures pos == if at == -1 then old(pos) else old(pos) + n
    {
      if inlines && n <= buf.Length - pos {
        at := pos;
        pos := pos + n;
      } else {
        at := -1;
      }
    }

    /** Writing a word through a pointer into the memory. */
    method PutWord(at: nat, v: int32)
      requires at + UNIT <= buf.Length
      modifies buf
      ensures Wrote(old(buf[..]), buf[..], at, EncInt(v))
    {
      var b := EncInt(v);
      buf[at], buf[at + 1], buf[at + 2], buf[at + 3] := b[0], b[1], b[2], b[3];
    }

    method GetWord(at: nat) returns (v: int32)
      requires at + UNIT <= buf.Length
      ensures v == DecInt(buf[at..at + UNIT])
    {
      v := DecInt([buf[at], buf[at + 1], buf[at + 2], buf[at + 3]]);
      assert buf[at..at + UNIT] == [buf[at], buf[at + 1], buf[at + 2], buf[at + 3]];
    }

    /** xdr_int, encoding. */
    method PutInt(v: int32) returns (ok: bool)
      requires Valid()
      modifies this, buf
      ensures Valid() && ok == (UNIT <= old(Left()))
      ensures pos == if ok then old(pos) + UNIT else old(pos)
      ensures if ok then Wrote(old(buf[..]), buf[..], old(pos), EncInt(v)) else buf[..] == old(buf[..])
    {
      ok := UNIT <= buf.Length - pos;
      if ok {
        PutWord(pos, v);
        pos := pos + UNIT;
      }
    }

    /** xdr_int, decoding. */
    method GetInt() returns (ok: bool, v: int32)
      requires Valid()
      modifies this
      ensures Valid() && ok == (UNIT <= old(Left()))
      ensures pos == if ok then old(pos) + UNIT else old(pos)
      ensures ok ==> v == DecInt(buf[old(pos)..pos])
    {
      ok, v := UNIT <= buf.Length - pos, 0;
      if ok {
        v := GetWord(pos);
        pos := pos + UNIT;
      }
    }

    /** xdr_char, decoding: an integer of which the low eight bits are kept. */
    method GetChar() returns (ok: bool, c: int8)
      requires Valid()
      modifies this
      ensures Valid() && ok == (UNIT <= old(Left()))
      ensures pos == if ok then old(pos) + UNIT else old(pos)
      ensures ok ==> c == Narrow(DecInt(buf[old(pos)..pos]))
    {
      var v: int32;
      ok, v := GetInt();
      c := Narrow(v);
    }

    /** xdr_vector over xdr_char, encoding. */
    method PutChars(cs: array<int8>) returns (ok: bool)
      requires Valid()
      modifies this, buf
      ensures Valid() && ok == (UNIT * cs.Length <= old(Left()))
      ensures cs[..] == old(cs[..])
      ensures ok ==> pos == old(pos) + UNIT * cs.Length && Wrote(old(buf[..]), buf[..], old(pos), EncChars(cs[..]))
      ensures old(pos) <= pos && buf[..old(pos)] == old(buf[..pos])
    {
      ghost var before, start := buf[..], pos;
      var i := 0;
      while i < cs.Length
        invariant 0 <= i <= cs.Length && pos == start + UNIT * i <= buf.Length
        invariant Wrote(before, buf[..], start, EncChars(cs[..i]))
        invariant cs[..] == old(cs[..])
      {
        ghost var middle := buf[..];
        assert cs[..i + 1][..i] == cs[..i];
        ok := PutInt(cs[i]);
        if !ok {
          return;
        }
        WroteBoth(before, middle, buf[..], start, EncChars(cs[..i]), EncInt(cs[i]));
        i := i + 1;
      }
      assert cs[..cs.Length] == cs[..];
      ok := true;
    }

    /** xdr_vector over xdr_char, decoding: each element keeps the low eight bits of its word. */
    method GetChars(cs: array<int8>) returns (ok: bool)
      requires Valid()
      modifies this, cs
      ensures Valid() && ok == (UNIT * cs.Length <= old(Left())) && buf[..] == old(buf[..])
      ensures ok ==> pos == old(pos) + UNIT * cs.Length && cs[..] == DecChars(buf[old(pos)..pos], cs.Length)
    {
      ghost var start := pos;
      var i := 0;
      while i < cs.Length
        invariant 0 <= i <= cs.Length && pos == start + UNIT * i <= buf.Length
        invariant Decoded(buf[..], start, i, cs[..i])
        invariant buf[..] == old(buf[..])
      {
        var c: int8;
        ok, c := GetChar();
        if !ok {
          return;
        }
        DecSnoc(buf[..], start, i, cs[..i], c);
        cs[i] := c;
        assert cs[..i + 1] == cs[..i] + [cs[i]];
        i := i + 1;
      }
      assert cs[..cs.Length] == cs[..];
      ok := true;
    }
  }
}
