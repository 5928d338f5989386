/** writer_reader.c: readers and writers that enter with one group of five semaphore operations. */
module ReadersWriters {
  import opened Common
  import opened Semaphores

  const WRITE_QUEUE: nat := 0
  const READ_QUEUE: nat := 1
  const ACTIVE_WRITER: nat := 2
  const ACTIVE_READERS: nat := 3

  const START_READ: seq<SemBuf> :=
    [SemBuf(READ_QUEUE, 1), SemBuf(WRITE_QUEUE, 0), SemBuf(ACTIVE_WRITER, 0), SemBuf(ACTIVE_READERS, 1),
     SemBuf(READ_QUEUE, -1)]
  const END_READ: seq<SemBuf> := [SemBuf(ACTIVE_READERS, -1)]
  const START_WRITE: seq<SemBuf> :=
    [SemBuf(WRITE_QUEUE, 1), SemBuf(ACTIVE_WRITER, 0), SemBuf(ACTIVE_READERS, 0), SemBuf(ACTIVE_WRITER, 1),
     SemBuf(WRITE_QUEUE, -1)]
  const END_WRITE: seq<SemBuf> := [SemBuf(ACTIVE_WRITER, -1)]

  const ALPHABET: nat := 26
  const LETTER_A: int := 'a' as int
  const LETTER_Z: int := 'z' as int

  datatype Role = Reader | Writer

  datatype Pc =
    | TestFlag     // 50 or 71
    | Enter        // 51 or 72
    | Print        // 61: the reader prints the letter
    | Increment    // 82: the writer's (*var)++
    | Wrap         // 83-85
    | Leave        // 63 or 89 (the writer's own printf on line 87 belongs to it)

  datatype Proc = Proc(role: Role, pc: Pc, flag: bool, running: bool)

  /** A letter a reader printed, and how many writes were complete then. */
  datatype Seen = Seen(letter: int, writes: nat)

  datatype State = State(sems: seq<nat>, letter: int, procs: seq<Proc>, writes: nat, log: seq<Seen>)

  datatype Action = Step(proc: nat) | Sigint(proc: nat) | Eintr(proc: nat) | Kill(proc: nat)

  function StartGroup(role: Role): (g: seq<SemBuf>)
    ensures InRange(g, 4)
  {
    if role.Reader? then START_READ else START_WRITE
  }

  function EndGroup(role: Role): (g: seq<SemBuf>)
    ensures InRange(g, 4)
  {
    if role.Reader? then END_READ else END_WRITE
  }

  function Init(roles: seq<Role>): State {
    State([0, 0, 0, 0], LETTER_A,
          seq(|roles|, i requires 0 <= i < |roles| => Proc(roles[i], TestFlag, true, true)), 0, [])
  }

  function Gone(p: Proc): Proc { p.(running := false, flag := false) }

  predicate Inside(p: Proc) { !p.pc.TestFlag? && !p.pc.Enter? }
  predicate ReaderInside(p: Proc) { p.role.Reader? && Inside(p) }
  predicate WriterInside(p: Proc) { p.role.Writer? && Inside(p) }

  function Put(s: State, k: nat, p: Proc): State
    requires k < |s.procs|
  {
    s.(procs := s.procs[k := p])
  }

  predicate WouldBlock(s: State, p: Proc)
    requires |s.sems| == 4
  {
    || (p.pc.Enter? && SemOp(s.sems, StartGroup(p.role)).Blocked?)
    || (p.pc.Leave? && SemOp(s.sems, EndGroup(p.role)).Blocked?)
  }

  /** One step of process k. A group that would have to wait leaves everything as it is. */
  function StepProc(s: State, k: nat): (t: State)
    requires |s.sems| == 4 && k < |s.procs|
    ensures |t.sems| == 4 && |t.procs| == |s.procs|
  {
    var p := s.procs[k];
    match p.pc
    case TestFlag => Put(s, k, if p.flag then p.(pc := Enter) else Gone(p))
    case Enter =>
      (match SemOp(s.sems, StartGroup(p.role))
       case Done(sems) => Put(s, k, p.(pc := if p.role.Reader? then Print else Increment)).(sems := sems)
       case Blocked => s)
    case Print => Put(s, k, p.(pc := Leave)).(log := s.log + [Seen(s.letter, s.writes)])
    case Increment => Put(s, k, p.(pc := Wrap)).(letter := s.letter + 1)
    case Wrap =>
      Put(s, k, p.(pc := Leave)).(letter := if s.letter == LETTER_Z + 1 then LETTER_A else s.letter,
                                  writes := s.writes + 1)
    case Leave =>
      (match SemOp(s.sems, EndGroup(p.role))
       case Done(sems) => Put(s, k, p.(pc := TestFlag)).(sems := sems)
       case Blocked => s)
  }

  predicate Enabled(s: State, a: Action)
    requires |s.sems| == 4
  {
    && a.proc < |s.procs|
    && s.procs[a.proc].running
    && (a.Step? ==> !WouldBlock(s, s.procs[a.proc]))
    && (a.Eintr? ==> WouldBlock(s, s.procs[a.proc]))
  }

  function Apply(s: State, a: Action): (t: State)
    requires |s.sems| == 4
    ensures |t.sems| == 4
  {
    if !Enabled(s, a) then s
    else match a
      case Step(k) => StepProc(s, k)
      case Sigint(k) => Put(s, k, s.procs[k].(flag := false))
      case Eintr(k) => Put(s, k, Gone(s.procs[k]))
      case Kill(k) => Put(s, k, Gone(s.procs[k]))
  }

  function Run(s: State, actions: seq<Action>): (t: State)
    requires |s.sems| == 4
    ensures |t.sems| == 4
    decreases |actions|
  {
    if actions == [] then s else Run(Apply(s, actions[0]), actions[1..])
  }

  // ---------- What the groups amount to ----------

  /** A reader's five operations are one guarded increment of ACTIVE_READERS. */
  lemma StartReadMeaning(sems: seq<nat>, g: seq<SemBuf>)
    requires |sems| == 4 && g == START_READ
    ensures InRange(g, 4)
    ensures SemOp(sems, g) ==
            if sems[WRITE_QUEUE] == 0 && sems[ACTIVE_WRITER] == 0 then
              Done(sems[ACTIVE_READERS := sems[ACTIVE_READERS] + 1])
            else Blocked
  {
    Bracketed(sems, g, READ_QUEUE, WRITE_QUEUE, ACTIVE_WRITER, ACTIVE_READERS);
  }

  /** A writer's five operations are one guarded increment of ACTIVE_WRITER. */
  lemma StartWriteMeaning(sems: seq<nat>, g: seq<SemBuf>)
    requires |sems| == 4 && g == START_WRITE
    ensures InRange(g, 4)
    ensures SemOp(sems, g) ==
            if sems[ACTIVE_WRITER] == 0 && sems[ACTIVE_READERS] == 0 then
              Done(sems[ACTIVE_WRITER := sems[ACTIVE_WRITER] + 1])
            else Blocked
  {
    Bracketed(sems, g, WRITE_QUEUE, ACTIVE_WRITER, ACTIVE_READERS, ACTIVE_WRITER);
  }

  /** A group that raises a queue, waits for two zeros, raises a target and lowers the queue again. */
  lemma Bracketed(sems: seq<nat>, g: seq<SemBuf>, queue: nat, zero1: nat, zero2: nat, target: nat)
    requires |sems| == 4 && queue < 4 && zero1 < 4 && zero2 < 4 && target < 4
    requires queue != zero1 && queue != zero2 && queue != target
    requires g == [SemBuf(queue, 1), SemBuf(zero1, 0), SemBuf(zero2, 0), SemBuf(target, 1), SemBuf(queue, -1)]
    ensures InRange(g, 4)
    ensures SemOp(sems, g) ==
            if sems[zero1] == 0 && sems[zero2] == 0 then Done(sems[target := sems[target] + 1]) else Blocked
  {
    var s1: seq<nat> := sems[queue := sems[queue] + 1];
    var lower := [SemBuf(target, 1), SemBuf(queue, -1)];
    GroupStep(sems, g, g[0], g[1..]);
    ZeroTest(s1, g[1..], zero1, g[2..]);
    ZeroTest(s1, g[2..], zero2, lower);
    RaiseAndLower(s1, lower, queue, target);
    assert s1[target := s1[target] + 1][queue := s1[queue] - 1] == sems[target := sems[target] + 1];
  }

  /** Waiting for zero changes nothing. */
  lemma ZeroTest(sems: seq<nat>, g: seq<SemBuf>, zero: nat, rest: seq<SemBuf>)
    requires zero < |sems| && g == [SemBuf(zero, 0)] + rest && InRange(rest, |sems|)
    ensures InRange(g, |sems|)
    ensures SemOp(sems, g) == if sems[zero] == 0 then SemOp(sems, rest) else Blocked
  {
    assert g[0] == SemBuf(zero, 0) && g[1..] == rest;
    GroupStep(sems, g, g[0], rest);
    assert sems[zero := sems[zero] + 0] == sems;
  }

  lemma RaiseAndLower(sems: seq<nat>, g: seq<SemBuf>, queue: nat, target: nat)
    requires |sems| == 4 && queue < 4 && target < 4 && queue != target && sems[queue] > 0
    requires g == [SemBuf(target, 1), SemBuf(queue, -1)]
    ensures InRange(g, 4)
    ensures SemOp(sems, g) == Done(sems[target := sems[target] + 1][queue := sems[queue] - 1])
  {
    var next: seq<nat> := sems[target := sems[target] + 1];
    GroupStep(sems, g, g[0], g[1..]);
    GroupStep(next, g[1..], g[1], []);
  }

  lemma EndMeaning(sems: seq<nat>, role: Role, g: seq<SemBuf>)
    requires |sems| == 4 && g == EndGroup(role)
    ensures var active := if role.Reader? then ACTIVE_READERS else ACTIVE_WRITER;
            SemOp(sems, g) == if sems[active] > 0 then Done(sems[active := sems[active] - 1]) else Blocked
  {
    GroupStep(sems, g, g[0], []);
  }

  // ---------- The invariant ----------

  ghost predicate SemInv(s: State) {
    && |s.sems| == 4
    && s.sems[WRITE_QUEUE] == 0 && s.sems[READ_QUEUE] == 0
    && s.sems[ACTIVE_WRITER] == Count(s.procs, WriterInside)
    && s.sems[ACTIVE_READERS] == Count(s.procs, ReaderInside)
    && s.sems[ACTIVE_WRITER] <= 1
    && (s.sems[ACTIVE_WRITER] == 0 || s.sems[ACTIVE_READERS] == 0)
  }

  /** Between the increment and the wrap the letter is one ahead, at other times it is the number of
      complete writes round the alphabet. */
  ghost predicate LetterInv(s: State) {
    && (forall k :: 0 <= k < |s.procs| ==>
          (s.procs[k].pc.Print? ==> s.procs[k].role.Reader?)
          && (s.procs[k].pc.Increment? || s.procs[k].pc.Wrap? ==> s.procs[k].role.Writer?))
    && (forall k :: 0 <= k < |s.procs| && s.procs[k].pc.Wrap? ==> s.letter == LETTER_A + s.writes % ALPHABET + 1)
    && ((forall k :: 0 <= k < |s.procs| ==> !s.procs[k].pc.Wrap?) ==> s.letter == LETTER_A + s.writes % ALPHABET)
  }

  ghost predicate LogInv(s: State) {
    && (forall i :: 0 <= i < |s.log| ==>
          s.log[i].letter == LETTER_A + s.log[i].writes % ALPHABET && s.log[i].writes <= s.writes)
    && (forall i, j :: 0 <= i <= j < |s.log| ==> s.log[i].writes <= s.log[j].writes)
  }

  ghost predicate Inv(s: State) {
    SemInv(s) && LetterInv(s) && LogInv(s)
  }

  lemma InitInv(roles: seq<Role>)
    ensures Inv(Init(roles))
  {
    CountZero(Init(roles).procs, WriterInside);
    CountZero(Init(roles).procs, ReaderInside);
  }

  /** A writer inside is alone. */
  lemma WriterIsAlone(s: State, k: nat)
    requires SemInv(s) && k < |s.procs| && WriterInside(s.procs[k])
    ensures s.sems[ACTIVE_WRITER] == 1 && s.sems[ACTIVE_READERS] == 0
    ensures forall j :: 0 <= j < |s.procs| && Inside(s.procs[j]) ==> j == k
  {
    CountZero(s.procs, WriterInside);
    CountZero(s.procs, ReaderInside);
    forall j | 0 <= j < |s.procs| && Inside(s.procs[j]) ensures j == k {
      if j != k && s.procs[j].role.Writer? { CountTwo(s.procs, j, k, WriterInside); }
    }
  }

  /** With a reader inside there is no writer inside. */
  lemma ReaderExcludesWriters(s: State, k: nat)
    requires SemInv(s) && k < |s.procs| && ReaderInside(s.procs[k])
    ensures s.sems[ACTIVE_WRITER] == 0 && s.sems[ACTIVE_READERS] > 0
    ensures forall j :: 0 <= j < |s.procs| ==> !WriterInside(s.procs[j])
  {
    CountZero(s.procs, WriterInside);
    CountZero(s.procs, ReaderInside);
  }

  lemma EnterSem(s: State, k: nat)
    requires SemInv(s) && k < |s.procs| && s.procs[k].pc.Enter?
    ensures SemInv(StepProc(s, k))
  {
    var p, t := s.procs[k], StepProc(s, k);
    CountUpdate(s.procs, k, t.procs[k], WriterInside);
    CountUpdate(s.procs, k, t.procs[k], ReaderInside);
    if p.role.Reader? { StartReadMeaning(s.sems, StartGroup(p.role)); }
    else { StartWriteMeaning(s.sems, StartGroup(p.role)); }
  }

  /** Leaving never has to wait: who is inside has its unit in the count. */
  lemma LeaveSem(s: State, k: nat)
    requires SemInv(s) && k < |s.procs| && s.procs[k].pc.Leave?
    ensures SemInv(StepProc(s, k)) && !WouldBlock(s, s.procs[k])
  {
    var p, t := s.procs[k], StepProc(s, k);
    CountUpdate(s.procs, k, t.procs[k], WriterInside);
    CountUpdate(s.procs, k, t.procs[k], ReaderInside);
    EndMeaning(s.sems, p.role, EndGroup(p.role));
    if p.role.Writer? { WriterIsAlone(s, k); } else { ReaderExcludesWriters(s, k); }
  }

  lemma SemStep(s: State, k: nat)
    requires SemInv(s) && k < |s.procs|
    ensures SemInv(StepProc(s, k))
  {
    var p := s.procs[k];
    if p.pc.Enter? { EnterSem(s, k); }
    else if p.pc.Leave? { LeaveSem(s, k); }
    else {
      CountUpdate(s.procs, k, StepProc(s, k).procs[k], WriterInside);
      CountUpdate(s.procs, k, StepProc(s, k).procs[k], ReaderInside);
    }
  }

  /** A signal or a kill leaves semaphores, letter and the place of every process as they are. */
  lemma FaultKeepsInv(s: State, k: nat, p: Proc)
    requires Inv(s) && k < |s.procs| && p.pc == s.procs[k].pc && p.role == s.procs[k].role
    ensures Inv(Put(s, k, p))
  {
    var t := Put(s, k, p);
    CountUpdate(s.procs, k, p, WriterInside);
    CountUpdate(s.procs, k, p, ReaderInside);
    assert forall j :: 0 <= j < |s.procs| ==> t.procs[j].pc == s.procs[j].pc && t.procs[j].role == s.procs[j].role;
  }

  lemma ModStep(n: nat)
    ensures (n + 1) % ALPHABET == if n % ALPHABET == ALPHABET - 1 then 0 else n % ALPHABET + 1
  {
  }

  /** The writer inside moves the letter, and nobody else is at the wrap. */
  lemma WriterMovesLetter(s: State, k: nat)
    requires SemInv(s) && LetterInv(s) && k < |s.procs| && (s.procs[k].pc.Increment? || s.procs[k].pc.Wrap?)
    ensures LetterInv(StepProc(s, k))
  {
    var p, t := s.procs[k], StepProc(s, k);
    ModStep(s.writes);
    WriterIsAlone(s, k);
    forall j | 0 <= j < |t.procs| && j != k ensures !t.procs[j].pc.Wrap? {
      assert t.procs[j] == s.procs[j];
    }
    assert t.procs[k].pc.Wrap? == p.pc.Increment?;
  }

  /** Every other step leaves the letter alone, and brings nobody to the wrap. */
  lemma OthersKeepLetter(s: State, k: nat)
    requires |s.sems| == 4 && k < |s.procs| && !s.procs[k].pc.Increment? && !s.procs[k].pc.Wrap?
    requires s.procs[k].pc.Print? ==> s.procs[k].role.Reader?
    ensures var t := StepProc(s, k); var p := t.procs[k];
            && t.letter == s.letter && t.writes == s.writes && t.procs == s.procs[k := p]
            && !p.pc.Wrap? && (p.pc.Print? ==> p.role.Reader?) && (p.pc.Increment? ==> p.role.Writer?)
  {
    assert s.procs == s.procs[k := s.procs[k]];
  }

  lemma LetterStep(s: State, k: nat)
    requires SemInv(s) && LetterInv(s) && k < |s.procs|
    ensures LetterInv(StepProc(s, k))
  {
    var p, t := s.procs[k], StepProc(s, k);
    if p.pc.Increment? || p.pc.Wrap? {
      WriterMovesLetter(s, k);
    } else {
      OthersKeepLetter(s, k);
      LetterFrame(s, t, k);
    }
  }

  lemma LetterFrame(s: State, t: State, k: nat)
    requires LetterInv(s) && k < |s.procs| == |t.procs| && !s.procs[k].pc.Wrap? && !t.procs[k].pc.Wrap?
    requires t.letter == s.letter && t.writes == s.writes && t.procs == s.procs[k := t.procs[k]]
    requires t.procs[k].pc.Print? ==> t.procs[k].role.Reader?
    requires t.procs[k].pc.Increment? ==> t.procs[k].role.Writer?
    ensures LetterInv(t)
  {
    if forall j :: 0 <= j < |t.procs| ==> !t.procs[j].pc.Wrap? {
      forall j | 0 <= j < |s.procs| ensures !s.procs[j].pc.Wrap? {
        assert !t.procs[j].pc.Wrap?;
      }
    }
  }

  lemma LogStep(s: State, k: nat)
    requires SemInv(s) && LetterInv(s) && LogInv(s) && k < |s.procs|
    ensures LogInv(StepProc(s, k))
  {
    if s.procs[k].pc.Print? {
      ReaderExcludesWriters(s, k);
    }
  }

  lemma ApplyKeepsInv(s: State, a: Action)
    requires Inv(s)
    ensures Inv(Apply(s, a))
  {
    if Enabled(s, a) {
      var k, t := a.proc, Apply(s, a);
      if a.Step? {
        SemStep(s, k);
        LetterStep(s, k);
        LogStep(s, k);
      } else {
        FaultKeepsInv(s, k, t.procs[k]);
      }
    }
  }

  lemma {:induction false} RunKeepsInv(s: State, actions: seq<Action>)
    requires Inv(s)
    ensures Inv(Run(s, actions))
    decreases |actions|
  {
    if actions == [] {
    } else {
      ApplyKeepsInv(s, actions[0]);
      RunKeepsInv(Apply(s, actions[0]), actions[1..]);
    }
  }

  ghost predicate Reachable(s: State) {
    exists roles: seq<Role>, actions: seq<Action> :: s == Run(Init(roles), actions)
  }

  lemma ReachableInv(s: State)
    requires Reachable(s)
    ensures Inv(s)
  {
    var roles: seq<Role>, actions: seq<Action> :| s == Run(Init(roles), actions);
    InitInv(roles);
    RunKeepsInv(Init(roles), actions);
  }
}
