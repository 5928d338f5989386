/** What a producer or consumer does between entering and leaving the critical section. The two
    programs prod_cons.c and prod_cons_mac.c have this code in common. */
module RingBody {

  const ELEMENTS: nat := 32
  const ALPHABET: nat := 26
  const LETTER_A: int := 'a' as int
  const LETTER_Z: int := 'z' as int

  datatype Role = Producer | Consumer

  /** The next statement of the section, by the lines of prod_cons.c. */
  datatype Pc =
    | Store        // 83: the letter goes into the slot
    | Get          // 56: the slot is read
    | Advance      // 83 or 58: the pointer moves on
    | BumpLetter   // 84
    | WrapLetter   // 86-87
    | WrapPointer  // 89-90 or 59-61
    | Finished     // the group that leaves the section is next

  /** The shared memory; pointers are indices into the buffer. `produced` and `consumed` are the
      histories of letters put and letters read. */
  datatype Ring = Ring(buf: seq<int>, producep: nat, consumep: nat, letter: int, produced: seq<int>, consumed: seq<int>)

  function Fresh(): Ring {
    Ring(seq(ELEMENTS, _ => 0), 0, 0, LETTER_A, [], [])
  }

  function First(role: Role): Pc { if role.Producer? then Store else Get }

  predicate Belongs(role: Role, pc: Pc) {
    match pc
    case Store => role.Producer?
    case Get => role.Consumer?
    case BumpLetter => role.Producer?
    case WrapLetter => role.Producer?
    case _ => true
  }

  function Next(role: Role, pc: Pc): Pc {
    match pc
    case Store => Advance
    case Get => Advance
    case Advance => if role.Producer? then BumpLetter else WrapPointer
    case BumpLetter => WrapLetter
    case WrapLetter => WrapPointer
    case WrapPointer => Finished
    case Finished => Finished
  }

  /** One statement. A store or read through a pointer outside the buffer would not touch a slot;
      PointersInRing shows that this does not happen. */
  function Body(r: Ring, role: Role, pc: Pc): Ring {
    match pc
    case Store =>
      r.(buf := if r.producep < |r.buf| then r.buf[r.producep := r.letter] else r.buf,
         produced := r.produced + [r.letter])
    case Get =>
      r.(consumed := r.consumed + [if r.consumep < |r.buf| then r.buf[r.consumep] else 0])
    case Advance =>
      if role.Producer? then r.(producep := r.producep + 1) else r.(consumep := r.consumep + 1)
    case BumpLetter => r.(letter := r.letter + 1)
    case WrapLetter => if r.letter == LETTER_Z + 1 then r.(letter := LETTER_A) else r
    case WrapPointer =>
      if role.Producer? then (if r.producep == ELEMENTS then r.(producep := 0) else r)
      else (if r.consumep == ELEMENTS then r.(consumep := 0) else r)
    case Finished => r
  }

  // ---------- What the memory holds ----------

  /** Where a pointer stands after `moved` passes of its owner, one of which may be unfinished. */
  ghost function PointerAt(moved: nat, mine: bool, pc: Pc): int {
    if mine && pc.Advance? then (moved - 1) % ELEMENTS
    else if mine && (pc.BumpLetter? || pc.WrapLetter? || pc.WrapPointer?) then (moved - 1) % ELEMENTS + 1
    else moved % ELEMENTS
  }

  ghost function LetterAt(put: nat, mine: bool, pc: Pc): int {
    if mine && (pc.Advance? || pc.BumpLetter?) then LETTER_A + (put - 1) % ALPHABET
    else if mine && pc.WrapLetter? then LETTER_A + (put - 1) % ALPHABET + 1
    else LETTER_A + put % ALPHABET
  }

  /** The memory when the process in the section, of the given role, is about to execute `pc`. With
      First or Finished this is also the memory that nobody is working on. */
  ghost predicate Consistent(r: Ring, role: Role, pc: Pc) {
    var put, got := |r.produced|, |r.consumed|;
    && |r.buf| == ELEMENTS
    && got <= put <= got + ELEMENTS
    && r.consumed == r.produced[..got]
    && (forall n :: 0 <= n < put ==> r.produced[n] == LETTER_A + n % ALPHABET)
    && (forall n :: got <= n < put ==> r.buf[n % ELEMENTS] == r.produced[n])
    && r.producep == PointerAt(put, role.Producer?, pc)
    && r.consumep == PointerAt(got, role.Consumer?, pc)
    && r.letter == LetterAt(put, role.Producer?, pc)
  }

  /** There is a free slot before a store, and an unread letter before a read. */
  ghost predicate Room(r: Ring, pc: Pc) {
    && (pc.Store? ==> |r.produced| < |r.consumed| + ELEMENTS)
    && (pc.Get? ==> |r.consumed| < |r.produced|)
  }

  lemma FreshConsistent()
    ensures Consistent(Fresh(), Producer, Finished)
  {
  }

  /** Entering and leaving do not touch the memory. */
  lemma RestIsRest(r: Ring, role: Role, other: Role)
    requires Consistent(r, role, Finished)
    ensures Consistent(r, other, First(other)) && Consistent(r, other, Finished)
  {
  }

  /** One step further round a ring of m places. */
  lemma ModSucc(n: int, m: int)
    requires m > 0
    ensures n % m == if (n - 1) % m + 1 == m then 0 else (n - 1) % m + 1
  {
    var q, r := (n - 1) / m, (n - 1) % m;
    if r + 1 == m {
      assert n == (q + 1) * m;
      ModUnique(n, m, q + 1, 0);
    } else {
      ModUnique(n, m, q, r + 1);
    }
  }

  lemma ModUnique(n: int, m: int, q: int, r: int)
    requires 0 <= r < m && n == q * m + r
    ensures n % m == r
  {
    MulAtLeast(m, n / m - q);
    assert m * (n / m - q) == r - n % m;
  }

  lemma MulAtLeast(m: int, d: int)
    requires m > 0
    ensures d >= 1 ==> m * d >= m
    ensures d <= -1 ==> m * d <= -m
  {
  }

  /** Numbers closer than the length of the ring have different slots. */
  lemma SlotsDiffer(a: int, b: int)
    requires a < b < a + ELEMENTS
    ensures a % ELEMENTS != b % ELEMENTS
  {
  }

  lemma UnreadSlots(r: Ring)
    requires |r.produced| < |r.consumed| + ELEMENTS
    ensures forall n :: |r.consumed| <= n < |r.produced| ==> n % ELEMENTS != |r.produced| % ELEMENTS
  {
    forall n | |r.consumed| <= n < |r.produced| ensures n % ELEMENTS != |r.produced| % ELEMENTS {
      SlotsDiffer(n, |r.produced|);
    }
  }

  lemma StoreKeeps(r: Ring)
    requires Consistent(r, Producer, Store) && Room(r, Store)
    ensures Consistent(Body(r, Producer, Store), Producer, Advance)
  {
    var t, put, got := Body(r, Producer, Store), |r.produced|, |r.consumed|;
    var slot := put % ELEMENTS;
    UnreadSlots(r);
    assert t.produced[..got] == r.produced[..got];
    assert t.buf == r.buf[slot := r.letter];
    forall n | got <= n < put + 1 ensures t.buf[n % ELEMENTS] == t.produced[n] {
      if n < put {
        assert r.buf[n % ELEMENTS] == r.produced[n];
      }
    }
  }

  lemma GetKeeps(r: Ring)
    requires Consistent(r, Consumer, Get) && Room(r, Get)
    ensures Consistent(Body(r, Consumer, Get), Consumer, Advance)
    ensures Body(r, Consumer, Get).consumed == r.consumed + [r.produced[|r.consumed|]]
  {
    var got := |r.consumed|;
    assert r.buf[got % ELEMENTS] == r.produced[got];
    assert r.produced[..got + 1] == r.produced[..got] + [r.produced[got]];
  }

  /** The statements that only move a pointer or the letter. */
  lemma MoveKeeps(r: Ring, role: Role, pc: Pc)
    requires Belongs(role, pc) && Consistent(r, role, pc) && !pc.Store? && !pc.Get?
    ensures Consistent(Body(r, role, pc), role, Next(role, pc))
  {
    var t, put, got := Body(r, role, pc), |r.produced|, |r.consumed|;
    ModSucc(put, ELEMENTS);
    ModSucc(got, ELEMENTS);
    ModSucc(put, ALPHABET);
    assert t.buf == r.buf && t.produced == r.produced && t.consumed == r.consumed;
  }

  lemma BodyKeeps(r: Ring, role: Role, pc: Pc)
    requires Belongs(role, pc) && Consistent(r, role, pc) && Room(r, pc)
    ensures Consistent(Body(r, role, pc), role, Next(role, pc))
  {
    match pc
    case Store => StoreKeeps(r);
    case Get => GetKeeps(r);
    case _ => MoveKeeps(r, role, pc);
  }

  /** No slot with an unread letter is written, and no pointer is followed outside the buffer. */
  lemma PointersInRing(r: Ring, role: Role, pc: Pc)
    requires Consistent(r, role, pc) && Room(r, pc)
    ensures pc.Store? ==> r.producep < ELEMENTS
                          && forall n :: |r.consumed| <= n < |r.produced| ==> n % ELEMENTS != r.producep
    ensures pc.Get? ==> r.consumep < ELEMENTS && r.buf[r.consumep] == r.produced[|r.consumed|]
  {
    var got := |r.consumed|;
    if pc.Store? { UnreadSlots(r); }
    if pc.Get? {
      assert r.buf[got % ELEMENTS] == r.produced[got];
    }
  }
}
