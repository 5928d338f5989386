/** xdr_BAKERY_REQUEST and xdr_BAKERY_RESPONSE, encoding and decoding. */
module BakeryXdr {
  import opened XdrSpec
  import opened XdrStream

  /** The encoder succeeds exactly when 604 bytes are left, and then has written exactly the
      encoding of the structure there. */
  method EncodeRequest(xdrs: Stream, objp: RequestStruct) returns (ok: bool)
    requires xdrs.Valid() && objp.Valid()
    modifies xdrs, xdrs.buf
    ensures xdrs.Valid() && ok == (REQUEST_SIZE <= old(xdrs.Left()))
    ensures objp.Abs() == old(objp.Abs())
    ensures ok ==> xdrs.pos == old(xdrs.pos) + REQUEST_SIZE
                   && Wrote(old(xdrs.buf[..]), xdrs.buf[..], old(xdrs.pos), EncRequest(old(objp.Abs())))
  {
    ghost var before, start, m := xdrs.buf[..], xdrs.pos, objp.Abs();
    ok := xdrs.PutInt(objp.clientId);
    if !ok { return; }
    ghost var first := xdrs.buf[..];
    ok := xdrs.PutChars(objp.requestType);
    if !ok { return; }
    ghost var second := xdrs.buf[..];
    WroteBoth(before, first, second, start, EncInt(m.clientId), EncChars(m.requestType));
    ok := xdrs.PutChars(objp.details);
    if !ok { return; }
    WroteBoth(before, second, xdrs.buf[..], start, EncInt(m.clientId) + EncChars(m.requestType), EncChars(m.details));
  }

  /** The decoder succeeds exactly when 604 bytes are left, and fills the structure with what they encode. */
  method DecodeRequest(xdrs: Stream, objp: RequestStruct) returns (ok: bool)
    requires xdrs.Valid() && objp.Valid()
    modifies xdrs, objp, objp.requestType, objp.details
    ensures xdrs.Valid() && ok == (REQUEST_SIZE <= old(xdrs.Left())) && xdrs.buf[..] == old(xdrs.buf[..])
    ensures ok ==> xdrs.pos == old(xdrs.pos) + REQUEST_SIZE
                   && objp.Abs() == DecRequest(xdrs.buf[old(xdrs.pos)..xdrs.pos])
  {
    ghost var start := xdrs.pos;
    var v: int32;
    ok, v := xdrs.GetInt();
    if !ok { return; }
    objp.clientId := v;
    ok := xdrs.GetChars(objp.requestType);
    if !ok { return; }
    ok := xdrs.GetChars(objp.details);
    if !ok { return; }
    SubSlice(xdrs.buf[..], start, xdrs.pos, 0, 4);
    SubSlice(xdrs.buf[..], start, xdrs.pos, 4, 204);
    SubSlice(xdrs.buf[..], start, xdrs.pos, 204, 604);
  }

  /** The bytes of the three words at the head of a response. */
  ghost function Header(m: Response): (b: seq<byte>)
    ensures |b| == 3 * UNIT
  {
    EncInt(m.clientId) + EncInt(m.ticketNumber) + EncInt(m.queuePosition)
  }

  lemma WroteThree(a: seq<byte>, b: seq<byte>, c: seq<byte>, d: seq<byte>, at: nat, m: Response)
    requires Wrote(a, b, at, EncInt(m.clientId))
    requires Wrote(b, c, at + UNIT, EncInt(m.ticketNumber))
    requires Wrote(c, d, at + 2 * UNIT, EncInt(m.queuePosition))
    ensures Wrote(a, d, at, Header(m))
  {
    WroteBoth(a, b, c, at, EncInt(m.clientId), EncInt(m.ticketNumber));
    WroteBoth(a, c, d, at, EncInt(m.clientId) + EncInt(m.ticketNumber), EncInt(m.queuePosition));
  }

  /** Field by field. */
  method PutFields(xdrs: Stream, objp: ResponseStruct) returns (ok: bool)
    requires xdrs.Valid() && objp.Valid()
    modifies xdrs, xdrs.buf
    ensures xdrs.Valid() && ok == (3 * UNIT <= old(xdrs.Left()))
    ensures ok ==> xdrs.pos == old(xdrs.pos) + 3 * UNIT
                   && Wrote(old(xdrs.buf[..]), xdrs.buf[..], old(xdrs.pos), Header(old(objp.Abs())))
  {
    ghost var before, m := xdrs.buf[..], objp.Abs();
    ok := xdrs.PutInt(objp.clientId);
    if !ok { return; }
    ghost var first := xdrs.buf[..];
    ok := xdrs.PutInt(objp.ticketNumber);
    if !ok { return; }
    ghost var second := xdrs.buf[..];
    ok := xdrs.PutInt(objp.queuePosition);
    if !ok { return; }
    WroteThree(before, first, second, xdrs.buf[..], old(xdrs.pos), m);
  }

  /** Through a pointer into the memory that the cursor has passed already. */
  method PutInline(xdrs: Stream, objp: ResponseStruct, buf: nat)
    requires objp.Valid() && buf + 3 * UNIT <= xdrs.buf.Length
    modifies xdrs.buf
    ensures Wrote(old(xdrs.buf[..]), xdrs.buf[..], buf, Header(old(objp.Abs())))
  {
    ghost var before, m := xdrs.buf[..], objp.Abs();
    xdrs.PutWord(buf, objp.clientId);
    ghost var first := xdrs.buf[..];
    xdrs.PutWord(buf + UNIT, objp.ticketNumber);
    ghost var second := xdrs.buf[..];
    xdrs.PutWord(buf + 2 * UNIT, objp.queuePosition);
    WroteThree(before, first, second, xdrs.buf[..], buf, m);
  }

  /** Three words, through a pointer when the stream gives one and one by one otherwise: the bytes, the
      cursor and the condition for success are the same either way. */
  method EncodeHeader(xdrs: Stream, objp: ResponseStruct) returns (ok: bool)
    requires xdrs.Valid() && objp.Valid()
    modifies xdrs, xdrs.buf
    ensures xdrs.Valid() && ok == (3 * UNIT <= old(xdrs.Left()))
    ensures ok ==> xdrs.pos == old(xdrs.pos) + 3 * UNIT
                   && Wrote(old(xdrs.buf[..]), xdrs.buf[..], old(xdrs.pos), Header(old(objp.Abs())))
  {
    var buf := xdrs.Inline(3 * UNIT);
    if buf == -1 {
      ok := PutFields(xdrs, objp);
    } else {
      ok := true;
      PutInline(xdrs, objp, buf);
    }
  }

  method EncodeResponse(xdrs: Stream, objp: ResponseStruct) returns (ok: bool)
    requires xdrs.Valid() && objp.Valid()
    modifies xdrs, xdrs.buf
    ensures xdrs.Valid() && ok == (RESPONSE_SIZE <= old(xdrs.Left()))
    ensures objp.Abs() == old(objp.Abs())
    ensures ok ==> xdrs.pos == old(xdrs.pos) + RESPONSE_SIZE
                   && Wrote(old(xdrs.buf[..]), xdrs.buf[..], old(xdrs.pos), EncResponse(old(objp.Abs())))
  {
    ghost var before, start, m := xdrs.buf[..], xdrs.pos, objp.Abs();
    ok := EncodeHeader(xdrs, objp);
    if !ok { return; }
    ghost var middle := xdrs.buf[..];
    ok := xdrs.PutChars(objp.status);
    if !ok { return; }
    WroteBoth(before, middle, xdrs.buf[..], start, Header(m), EncChars(m.status));
  }

  method DecodeHeader(xdrs: Stream, objp: ResponseStruct) returns (ok: bool)
    requires xdrs.Valid() && objp.Valid()
    modifies xdrs, objp
    ensures xdrs.Valid() && ok == (3 * UNIT <= old(xdrs.Left())) && xdrs.buf[..] == old(xdrs.buf[..])
    ensures ok ==> xdrs.pos == old(xdrs.pos) + 3 * UNIT
    ensures ok ==> objp.clientId == DecInt(xdrs.buf[old(xdrs.pos)..old(xdrs.pos) + 4])
    ensures ok ==> objp.ticketNumber == DecInt(xdrs.buf[old(xdrs.pos) + 4..old(xdrs.pos) + 8])
    ensures ok ==> objp.queuePosition == DecInt(xdrs.buf[old(xdrs.pos) + 8..old(xdrs.pos) + 12])
  {
    ok := true;
    var buf := xdrs.Inline(3 * UNIT);
    var v: int32 := 0;
    if buf == -1 {
      ok, v := xdrs.GetInt();
      if !ok { return; }
      objp.clientId := v;
      ok, v := xdrs.GetInt();
      if !ok { return; }
      objp.ticketNumber := v;
      ok, v := xdrs.GetInt();
      if !ok { return; }
      objp.queuePosition := v;
    } else {
      v := xdrs.GetWord(buf);
      objp.clientId := v;
      v := xdrs.GetWord(buf + UNIT);
      objp.ticketNumber := v;
      v := xdrs.GetWord(buf + 2 * UNIT);
      objp.queuePosition := v;
    }
  }

  method DecodeResponse(xdrs: Stream, objp: ResponseStruct) returns (ok: bool)
    requires xdrs.Valid() && objp.Valid()
    modifies xdrs, objp, objp.status
    ensures xdrs.Valid() && ok == (RESPONSE_SIZE <= old(xdrs.Left())) && xdrs.buf[..] == old(xdrs.buf[..])
    ensures ok ==> xdrs.pos == old(xdrs.pos) + RESPONSE_SIZE
                   && objp.Abs() == DecResponse(xdrs.buf[old(xdrs.pos)..xdrs.pos])
  {
    ghost var start := xdrs.pos;
    ok := DecodeHeader(xdrs, objp);
    if !ok { return; }
    ok := xdrs.GetChars(objp.status);
    if !ok { return; }
    SubSlice(xdrs.buf[..], start, xdrs.pos, 0, 4);
    SubSlice(xdrs.buf[..], start, xdrs.pos, 4, 8);
    SubSlice(xdrs.buf[..], start, xdrs.pos, 8, 12);
    SubSlice(xdrs.buf[..], start, xdrs.pos, 12, RESPONSE_SIZE);
  }

  /** Whatever paths the two sides take, a response sent is the response received, and the receiver's
      cursor stops right behind it. */
  method Transfer(memory: array<byte>, sent: ResponseStruct, received: ResponseStruct,
                  inlineOut: bool, inlineIn: bool)
    returns (ok: bool)
    requires sent.Valid() && received.Valid() && sent != received && sent.status != received.status
    modifies memory, received, received.status
    ensures ok == (memory.Length >= RESPONSE_SIZE)
    ensures ok ==> received.Abs() == sent.Abs() == old(sent.Abs())
    ensures ok ==> memory[RESPONSE_SIZE..] == old(memory[..])[RESPONSE_SIZE..]
  {
    var sender := new Stream(memory, inlineOut);
    ok := EncodeResponse(sender, sent);
    if ok {
      ghost var m := sent.Abs();
      ResponseRoundTrip(m, memory[RESPONSE_SIZE..]);
      assert memory[..RESPONSE_SIZE] == EncResponse(m);
      assert EncResponse(m) + memory[RESPONSE_SIZE..] == memory[..];
      var receiver := new Stream(memory, inlineIn);
      ok := DecodeResponse(receiver, received);
      assert memory[0..RESPONSE_SIZE] == memory[..RESPONSE_SIZE];
    }
  }
}
