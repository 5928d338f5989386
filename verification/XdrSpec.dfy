/** The bytes of the bakery messages, after RFC 4506: sections 4.1 (integers) and 4.12 (fixed-length
    arrays); the generated code carries every char as an integer. */
module XdrSpec {

  type byte = x: int | 0 <= x < 256
  type int32 = x: int | -0x8000_0000 <= x < 0x8000_0000
  /** The C type char, signed as on x86. */
  type int8 = x: int | -128 <= x < 128

  const UNIT: nat := 4
  const TYPE_LEN: nat := 50
  const DETAILS_LEN: nat := 100
  const STATUS_LEN: nat := 100
  const REQUEST_SIZE: nat := 604
  const RESPONSE_SIZE: nat := 412

  datatype Request = Request(clientId: int32, requestType: seq<int8>, details: seq<int8>)
  datatype Response = Response(clientId: int32, ticketNumber: int32, queuePosition: int32, status: seq<int8>)

  predicate FitsRequest(m: Request) { |m.requestType| == TYPE_LEN && |m.details| == DETAILS_LEN }
  predicate FitsResponse(m: Response) { |m.status| == STATUS_LEN }

  /** A word, most significant byte first, in two's complement. */
  function EncInt(v: int32): (b: seq<byte>)
    ensures |b| == UNIT
  {
    var u: int := if v < 0 then v + 0x1_0000_0000 else v;
    [u / 0x100_0000, u / 0x1_0000 % 256, u / 256 % 256, u % 256]
  }

  function Unsigned(b0: int, b1: int, b2: int, b3: int): int {
    b0 * 0x100_0000 + b1 * 0x1_0000 + b2 * 256 + b3
  }

  function DecInt(b: seq<byte>): int32
    requires |b| == UNIT
  {
    var u := Unsigned(b[0], b[1], b[2], b[3]);
    if u >= 0x8000_0000 then u - 0x1_0000_0000 else u
  }

  /** Assigning an int to a char keeps the low eight bits. */
  function Narrow(v: int32): int8 {
    var low := v % 256;
    if low >= 128 then low - 256 else low
  }

  function EncChars(cs: seq<int8>): (b: seq<byte>)
    ensures |b| == UNIT * |cs|
  {
    if cs == [] then [] else EncChars(cs[..|cs| - 1]) + EncInt(cs[|cs| - 1])
  }

  function DecChars(b: seq<byte>, n: nat): (cs: seq<int8>)
    requires |b| == UNIT * n
    ensures |cs| == n
  {
    if n == 0 then [] else DecChars(b[..UNIT * (n - 1)], n - 1) + [Narrow(DecInt(b[UNIT * (n - 1)..]))]
  }

  function EncRequest(m: Request): (b: seq<byte>)
    requires FitsRequest(m)
    ensures |b| == REQUEST_SIZE
  {
    EncInt(m.clientId) + EncChars(m.requestType) + EncChars(m.details)
  }

  function DecRequest(b: seq<byte>): (m: Request)
    requires |b| == REQUEST_SIZE
    ensures FitsRequest(m)
  {
    Request(DecInt(b[..4]), DecChars(b[4..204], TYPE_LEN), DecChars(b[204..], DETAILS_LEN))
  }

  function EncResponse(m: Response): (b: seq<byte>)
    requires FitsResponse(m)
    ensures |b| == RESPONSE_SIZE
  {
    EncInt(m.clientId) + EncInt(m.ticketNumber) + EncInt(m.queuePosition) + EncChars(m.status)
  }

  function DecResponse(b: seq<byte>): (m: Response)
    requires |b| == RESPONSE_SIZE
    ensures FitsResponse(m)
  {
    Response(DecInt(b[..4]), DecInt(b[4..8]), DecInt(b[8..12]), DecChars(b[12..], STATUS_LEN))
  }

  // ---------- Round trips ----------

  lemma IntRoundTrip(v: int32)
    ensures DecInt(EncInt(v)) == v
  {
    var u: int := if v < 0 then v + 0x1_0000_0000 else v;
    BytesBack(u);
  }

  lemma BytesBack(u: int)
    requires 0 <= u < 0x1_0000_0000
    ensures Unsigned(u / 0x100_0000, u / 0x1_0000 % 256, u / 256 % 256, u % 256) == u
  {
    assert u == u / 256 * 256 + u % 256;
    assert u / 256 == u / 0x1_0000 * 256 + u / 256 % 256;
    assert u / 0x1_0000 == u / 0x100_0000 * 256 + u / 0x1_0000 % 256;
  }

  lemma BytesOf(b0: int, b1: int, b2: int, b3: int)
    requires 0 <= b0 < 256 && 0 <= b1 < 256 && 0 <= b2 < 256 && 0 <= b3 < 256
    ensures var u := Unsigned(b0, b1, b2, b3);
            && 0 <= u < 0x1_0000_0000
            && u / 0x100_0000 == b0 && u / 0x1_0000 % 256 == b1 && u / 256 % 256 == b2 && u % 256 == b3
  {
    var u := Unsigned(b0, b1, b2, b3);
    assert u / 0x1_0000 == b0 * 256 + b1;
    assert u / 256 == (b0 * 256 + b1) * 256 + b2;
  }

  lemma WordRoundTrip(b: seq<byte>)
    requires |b| == UNIT
    ensures EncInt(DecInt(b)) == b
  {
    var u := Unsigned(b[0], b[1], b[2], b[3]);
    BytesOf(b[0], b[1], b[2], b[3]);
  }

  lemma {:induction false} CharsRoundTrip(cs: seq<int8>)
    ensures DecChars(EncChars(cs), |cs|) == cs
  {
    if cs == [] {
    } else {
      var n := |cs|;
      CharsRoundTrip(cs[..n - 1]);
      var b := EncChars(cs);
      assert b[..UNIT * (n - 1)] == EncChars(cs[..n - 1]) && b[UNIT * (n - 1)..] == EncInt(cs[n - 1]);
      IntRoundTrip(cs[n - 1]);
      NarrowIff(cs[n - 1]);
    }
  }

  /** Decoding what was encoded gives the message back, and leaves whatever follows it. */
  lemma RequestRoundTrip(m: Request, trailing: seq<byte>)
    requires FitsRequest(m)
    ensures DecRequest((EncRequest(m) + trailing)[..REQUEST_SIZE]) == m
    ensures (EncRequest(m) + trailing)[REQUEST_SIZE..] == trailing
  {
    var b := EncRequest(m);
    assert (b + trailing)[..REQUEST_SIZE] == b;
    assert b[..4] == EncInt(m.clientId);
    assert b[4..204] == EncChars(m.requestType);
    assert b[204..] == EncChars(m.details);
    IntRoundTrip(m.clientId);
    CharsRoundTrip(m.requestType);
    CharsRoundTrip(m.details);
  }

  lemma ResponseRoundTrip(m: Response, trailing: seq<byte>)
    requires FitsResponse(m)
    ensures DecResponse((EncResponse(m) + trailing)[..RESPONSE_SIZE]) == m
    ensures (EncResponse(m) + trailing)[RESPONSE_SIZE..] == trailing
  {
    var b := EncResponse(m);
    assert (b + trailing)[..RESPONSE_SIZE] == b;
    assert b[..4] == EncInt(m.clientId) && b[4..8] == EncInt(m.ticketNumber) && b[8..12] == EncInt(m.queuePosition);
    assert b[12..] == EncChars(m.status);
    IntRoundTrip(m.clientId);
    IntRoundTrip(m.ticketNumber);
    IntRoundTrip(m.queuePosition);
    CharsRoundTrip(m.status);
  }

  // ---------- The other direction ----------

  /** Every one of the n words of b is the integer of a char. */
  ghost predicate CharWords(b: seq<byte>, n: nat)
    requires |b| == UNIT * n
  {
    n == 0 || (CharWords(b[..UNIT * (n - 1)], n - 1) && -128 <= DecInt(b[UNIT * (n - 1)..]) < 128)
  }

  lemma WordCanonicalIff(word: seq<byte>)
    requires |word| == UNIT
    ensures EncInt(Narrow(DecInt(word))) == word <==> -128 <= DecInt(word) < 128
  {
    var v := DecInt(word);
    WordRoundTrip(word);
    EncInjective(Narrow(v), v);
    NarrowIff(v);
  }

  lemma EncInjective(v: int32, w: int32)
    ensures EncInt(v) == EncInt(w) <==> v == w
  {
    IntRoundTrip(v);
    IntRoundTrip(w);
  }

  lemma NarrowIff(v: int32)
    ensures Narrow(v) == v <==> -128 <= v < 128
  {
  }

  lemma SplitEqual(a: seq<byte>, b: seq<byte>, c: seq<byte>, d: seq<byte>)
    requires |a| == |c|
    ensures a + b == c + d <==> a == c && b == d
  {
    assert (a + b)[..|a|] == a && (a + b)[|a|..] == b;
    assert (c + d)[..|a|] == c && (c + d)[|a|..] == d;
  }

  lemma EncSnoc(cs: seq<int8>, c: int8, front: seq<byte>, word: seq<byte>)
    requires |front| == UNIT * |cs| && |word| == UNIT
    ensures EncChars(cs + [c]) == front + word <==> EncChars(cs) == front && EncInt(c) == word
  {
    assert (cs + [c])[..|cs|] == cs;
    SplitEqual(EncChars(cs), EncInt(c), front, word);
  }

  /** The decoder accepts any integer for a char and cuts it off, so encoding a decoded vector gives the
      same bytes back exactly when every word was in the range of a char. */
  lemma {:induction false} CharsCanonicalIff(b: seq<byte>, n: nat)
    requires |b| == UNIT * n
    ensures EncChars(DecChars(b, n)) == b <==> CharWords(b, n)
  {
    if n == 0 {
    } else {
      var front, word := b[..UNIT * (n - 1)], b[UNIT * (n - 1)..];
      CharsCanonicalIff(front, n - 1);
      CharsCanonicalStep(b, n, front, word);
    }
  }

  lemma CharsCanonicalStep(b: seq<byte>, n: nat, front: seq<byte>, word: seq<byte>)
    requires n > 0 && |b| == UNIT * n && front == b[..UNIT * (n - 1)] && word == b[UNIT * (n - 1)..]
    ensures EncChars(DecChars(b, n)) == b <==>
            EncChars(DecChars(front, n - 1)) == front && -128 <= DecInt(word) < 128
  {
    WordCanonicalIff(word);
    EncSnoc(DecChars(front, n - 1), Narrow(DecInt(word)), front, word);
    assert b == front + word;
  }

  /** A slice of a slice. */
  lemma SubSlice(m: seq<byte>, a: nat, b: nat, c: nat, d: nat)
    requires a <= b <= |m| && c <= d <= b - a
    ensures m[a..b][c..d] == m[a + c..a + d]
  {
    var x, y := m[a..b][c..d], m[a + c..a + d];
    assert |x| == |y|;
    forall i | 0 <= i < |x| ensures x[i] == y[i] {
      assert m[a..b][c + i] == m[a + c + i];
    }
  }

  /** Three parts in a row are the bytes b exactly when each is its slice of b. */
  lemma PartsEqual(x: seq<byte>, y: seq<byte>, z: seq<byte>, b: seq<byte>, i: nat, j: nat)
    requires |x| == i && |x| + |y| == j && |x| + |y| + |z| == |b|
    ensures x + y + z == b <==> x == b[..i] && y == b[i..j] && z == b[j..]
  {
    assert b == b[..i] + b[i..j] + b[j..];
    SplitEqual(x + y, z, b[..i] + b[i..j], b[j..]);
    SplitEqual(x, y, b[..i], b[i..j]);
  }

  /** For a whole response: what arrives is canonical exactly when its status words are chars. */
  lemma ResponseCanonicalIff(b: seq<byte>)
    requires |b| == RESPONSE_SIZE
    ensures EncResponse(DecResponse(b)) == b <==> CharWords(b[12..], STATUS_LEN)
  {
    var m := DecResponse(b);
    WordRoundTrip(b[..4]);
    WordRoundTrip(b[4..8]);
    WordRoundTrip(b[8..12]);
    CharsCanonicalIff(b[12..], STATUS_LEN);
    PartsEqual(b[..4] + b[4..8], b[8..12], EncChars(m.status), b, 8, 12);
  }

  /** For a whole request: its type and its details must be chars. */
  lemma RequestCanonicalIff(b: seq<byte>)
    requires |b| == REQUEST_SIZE
    ensures EncRequest(DecRequest(b)) == b <==> CharWords(b[4..204], TYPE_LEN) && CharWords(b[204..], DETAILS_LEN)
  {
    var m := DecRequest(b);
    WordRoundTrip(b[..4]);
    CharsCanonicalIff(b[4..204], TYPE_LEN);
    CharsCanonicalIff(b[204..], DETAILS_LEN);
    PartsEqual(b[..4], EncChars(m.requestType), EncChars(m.details), b, 4, 204);
  }

  /** A word that is not a char: 256 is accepted, cut off to 0, and does not come back. */
  lemma WordIsCutOff(word: seq<byte>)
    requires word == [0, 0, 1, 0]
    ensures DecInt(word) == 256 && Narrow(DecInt(word)) == 0
    ensures EncInt(Narrow(DecInt(word))) == [0, 0, 0, 0] != word
  {
  }

  // ---------- The bytes themselves ----------

  /** The weights of the four bytes, in both directions. */
  lemma WordWeights(v: int32)
    ensures EncInt(v)[0] as int * 0x100_0000 + EncInt(v)[1] as int * 0x1_0000
          + EncInt(v)[2] as int * 256 + EncInt(v)[3] as int == if v < 0 then v + 0x1_0000_0000 else v
  {
    BytesBack(if v < 0 then v + 0x1_0000_0000 else v);
  }

  lemma ValueOfWord(b: seq<byte>)
    requires |b| == 4
    ensures b[0] as int * 0x100_0000 + b[1] as int * 0x1_0000 + b[2] as int * 256 + b[3] as int
         == if DecInt(b) < 0 then DecInt(b) + 0x1_0000_0000 else DecInt(b)
  {
    WordRoundTrip(b);
    WordWeights(DecInt(b));
  }

  /** Assigning to a char keeps the value modulo 256. */
  lemma NarrowMod(v: int32)
    ensures Narrow(v) % 256 == v % 256
  {
  }

  /** The four bytes of v in two's complement, most significant first. */
  ghost predicate IsWord(b: seq<byte>, v: int) {
    && |b| == 4
    && b[0] as int * 0x100_0000 + b[1] as int * 0x1_0000 + b[2] as int * 256 + b[3] as int
       == if v < 0 then v + 0x1_0000_0000 else v
  }

  /** A char as it goes over the wire: sign-extended to a word. */
  ghost predicate IsCharWord(b: seq<byte>, c: int8) {
    b == if c >= 0 then [0, 0, 0, c] else [255, 255, 255, 256 + c]
  }

  lemma CharWord(c: int8)
    ensures IsCharWord(EncInt(c), c)
  {
  }

  lemma {:induction false} CharsAt(cs: seq<int8>, i: nat)
    requires i < |cs|
    ensures IsCharWord(EncChars(cs)[4 * i..4 * i + 4], cs[i])
  {
    var last := |cs| - 1;
    var b := EncChars(cs);
    if i == last {
      assert b[4 * i..4 * i + 4] == EncInt(cs[i]);
      CharWord(cs[i]);
    } else {
      assert b[4 * i..4 * i + 4] == EncChars(cs[..last])[4 * i..4 * i + 4];
      CharsAt(cs[..last], i);
    }
  }

  /** A word of a part of a message that starts at byte `at`. */
  lemma WordInMessage(b: seq<byte>, at: nat, part: seq<byte>, i: nat, c: int8)
    requires 4 * i + 4 <= |part| && at + |part| <= |b| && b[at..at + |part|] == part
    requires IsCharWord(part[4 * i..4 * i + 4], c)
    ensures IsCharWord(b[at + 4 * i..at + 4 * i + 4], c)
  {
    SubSlice(b, at, at + |part|, 4 * i, 4 * i + 4);
  }

  lemma RequestParts(m: Request)
    requires FitsRequest(m)
    ensures var b := EncRequest(m);
            b[..4] == EncInt(m.clientId) && b[4..204] == EncChars(m.requestType) && b[204..604] == EncChars(m.details)
  {
  }

  /** A request on the wire: the client id, 50 chars of type, 100 chars of details. */
  lemma RequestLayout(m: Request, i: nat, j: nat)
    requires |m.requestType| == 50 && |m.details| == 100 && i < 50 && j < 100
    ensures var b := EncRequest(m);
            && |b| == 604
            && IsWord(b[..4], m.clientId)
            && IsCharWord(b[4 + 4 * i..4 + 4 * i + 4], m.requestType[i])
            && IsCharWord(b[204 + 4 * j..204 + 4 * j + 4], m.details[j])
  {
    var b := EncRequest(m);
    RequestParts(m);
    WordWeights(m.clientId);
    CharsAt(m.requestType, i);
    WordInMessage(b, 4, EncChars(m.requestType), i, m.requestType[i]);
    CharsAt(m.details, j);
    WordInMessage(b, 204, EncChars(m.details), j, m.details[j]);
  }

  lemma ResponseParts(m: Response)
    requires FitsResponse(m)
    ensures var b := EncResponse(m);
            && b[..4] == EncInt(m.clientId) && b[4..8] == EncInt(m.ticketNumber)
            && b[8..12] == EncInt(m.queuePosition) && b[12..412] == EncChars(m.status)
  {
  }

  /** A response on the wire: client id, ticket, position in the queue, 100 chars of status. */
  lemma ResponseLayout(m: Response, i: nat)
    requires |m.status| == 100 && i < 100
    ensures var b := EncResponse(m);
            && |b| == 412
            && IsWord(b[..4], m.clientId) && IsWord(b[4..8], m.ticketNumber) && IsWord(b[8..12], m.queuePosition)
            && IsCharWord(b[12 + 4 * i..12 + 4 * i + 4], m.status[i])
  {
    var b := EncResponse(m);
    ResponseParts(m);
    WordWeights(m.clientId);
    WordWeights(m.ticketNumber);
    WordWeights(m.queuePosition);
    CharsAt(m.status, i);
    WordInMessage(b, 12, EncChars(m.status), i, m.status[i]);
  }

  /** So a small id, say, is three zero bytes and itself. */
  lemma SmallWord(b: seq<byte>, v: int)
    requires IsWord(b, v) && 0 <= v < 256
    ensures b == [0, 0, 0, v]
  {
  }
}
