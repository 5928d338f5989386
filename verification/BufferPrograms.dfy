/** The two programs on shared memory and semaphores that are updated in place. */
module BufferPrograms {
  import opened RingBody
  import S = Semaphores
  import V = SysVBuffer
  import P = PosixBuffer
  import R = PosixRefinement

  /** The shared segment: the letter, the two pointers and the buffer. */
  class SharedRing {
    const buf: array<int>
    var producep: nat
    var consumep: nat
    var letter: int
    ghost var produced: seq<int>
    ghost var consumed: seq<int>

    ghost function Abs(): Ring
      reads this, buf
    {
      Ring(buf[..], producep, consumep, letter, produced, consumed)
    }

    constructor ()
      ensures Abs() == Fresh() && fresh(buf)
    {
      buf := new int[ELEMENTS](_ => 0);
      producep, consumep, letter, produced, consumed := 0, 0, LETTER_A, [], [];
    }

    /** One statement of the producer between its two groups. */
    method Produce(pc: Pc)
      requires pc.Store? ==> producep < buf.Length
      requires !pc.Get?
      modifies this, buf
      ensures Abs() == Body(old(Abs()), Producer, pc)
    {
      match pc {
        case Store =>
          buf[producep] := letter;
          produced := produced + [letter];
        case Advance => producep := producep + 1;
        case BumpLetter => letter := letter + 1;
        case WrapLetter => if letter == LETTER_Z + 1 { letter := LETTER_A; }
        case WrapPointer => if producep == ELEMENTS { producep := 0; }
        case Finished =>
      }
      assert buf[..] == Body(old(Abs()), Producer, pc).buf;
    }

    /** One statement of the consumer; `read` is the letter it prints. */
    method Consume(pc: Pc) returns (read: int)
      requires pc.Get? || pc.Advance? || pc.WrapPointer? || pc.Finished?
      requires pc.Get? ==> consumep < buf.Length
      modifies this, buf
      ensures Abs() == Body(old(Abs()), Consumer, pc)
      ensures pc.Get? ==> consumed == old(consumed) + [read]
    {
      read := 0;
      match pc {
        case Get =>
          read := buf[consumep];
          consumed := consumed + [read];
        case Advance => consumep := consumep + 1;
        case WrapPointer => if consumep == ELEMENTS { consumep := 0; }
        case Finished =>
      }
    }

    /** The next statement of the process in the section. */
    method Statement(role: Role, pc: Pc)
      requires Belongs(role, pc) && Consistent(Abs(), role, pc) && Room(Abs(), pc)
      modifies this, buf
      ensures Abs() == Body(old(Abs()), role, pc)
    {
      PointersInRing(Abs(), role, pc);
      if role.Producer? {
        Produce(pc);
      } else {
        var letterRead := Consume(pc);
      }
    }
  }

  class SysVProgram {
    const sems: array<nat>
    const ring: SharedRing
    const procs: array<V.Proc>

    ghost function Abs(): V.State
      reads this, sems, ring, ring.buf, procs
    {
      V.State(sems[..], ring.Abs(), procs[..])
    }

    ghost predicate Valid()
      reads this, sems, ring, ring.buf, procs
    {
      V.Inv(Abs())
    }

    constructor (roles: seq<Role>)
      ensures Valid() && Abs() == V.Init(roles)
      ensures fresh(sems) && fresh(ring) && fresh(ring.buf) && fresh(procs)
    {
      sems := new nat[][ELEMENTS, 0, 1];
      ring := new SharedRing();
      procs := new V.Proc[|roles|](i requires 0 <= i < |roles| => V.Proc(roles[i], V.TestFlag, true, true));
      new;
      V.InitInv(roles);
      assert sems[..] == [ELEMENTS, 0, 1];
      assert procs[..] == V.Init(roles).procs;
    }

    /** One step of the loop of process k; false when its semop has to wait. */
    method Step(k: nat) returns (moved: bool)
      requires Valid() && k < procs.Length && procs[k].running
      modifies sems, ring, ring.buf, procs
      ensures Valid() && Abs() == V.Apply(old(Abs()), V.Step(k))
      ensures moved == V.Enabled(old(Abs()), V.Step(k))
    {
      V.ApplyKeepsInv(Abs(), V.Step(k));
      var p := procs[k];
      moved := true;
      match p.pc {
        case TestFlag =>
          procs[k] := if p.flag then p.(pc := V.Enter) else V.Gone(p);
        case Enter =>
          moved := S.Call(sems, V.StartGroup(p.role));
          if moved {
            procs[k] := p.(pc := V.Body(First(p.role)));
          }
        case Body(at) =>
          if at.Finished? {
            V.EndMeaning(sems[..], p.role, V.EndGroup(p.role));
            var posted := S.Call(sems, V.EndGroup(p.role));
            procs[k] := p.(pc := V.TestFlag);
          } else {
            V.InsiderHasRoom(Abs(), k);
            ring.Statement(p.role, at);
            procs[k] := p.(pc := V.Body(Next(p.role, at)));
          }
      }
      assert procs[..] == V.Apply(old(Abs()), V.Step(k)).procs;
      assert sems[..] == V.Apply(old(Abs()), V.Step(k)).sems;
    }

    /** SIGINT, an interrupted semop, or SIGALRM. */
    method Fault(a: V.Action)
      requires Valid() && V.Enabled(Abs(), a) && !a.Step?
      modifies procs
      ensures Valid() && Abs() == V.Apply(old(Abs()), a)
    {
      V.ApplyKeepsInv(Abs(), a);
      procs[a.proc] := if a.Sigint? then procs[a.proc].(flag := false) else V.Gone(procs[a.proc]);
    }
  }

  class PosixProgram {
    var empty: nat
    var full: nat
    var binary: nat
    const ring: SharedRing
    const procs: array<P.Proc>
    ghost var interrupted: nat

    ghost function Abs(): P.State
      reads this, ring, ring.buf, procs
    {
      P.State(empty, full, binary, ring.Abs(), procs[..], interrupted)
    }

    /** Seen as a state of the System V program, the state satisfies that program's invariant. */
    ghost predicate Valid()
      reads this, ring, ring.buf, procs
    {
      V.Inv(R.Abs(Abs()))
    }

    constructor (roles: seq<Role>)
      ensures Valid() && Abs() == P.Init(roles)
      ensures fresh(ring) && fresh(ring.buf) && fresh(procs)
    {
      empty, full, binary, interrupted := ELEMENTS, 0, 1, 0;
      ring := new SharedRing();
      procs := new P.Proc[|roles|](i requires 0 <= i < |roles| => P.Proc(roles[i], P.TestFlag, true, true, false));
      new;
      assert procs[..] == P.Init(roles).procs;
      R.InitRefines(roles);
      V.InitInv(roles);
    }

    /** The test of the flag, the two waits and the two posts of process k. */
    method SemaphoreStep(k: nat)
      requires k < procs.Length && procs[k].running && !P.WouldBlock(Abs(), procs[k])
      requires procs[k].pc.Body? ==> procs[k].pc.at.Finished?
      modifies this, procs
      ensures Abs() == P.StepProc(old(Abs()), k)
    {
      var p := procs[k];
      match p.pc {
        case TestFlag =>
          procs[k] := if p.flag then p.(pc := P.WaitFirst) else P.Gone(p);
        case WaitFirst =>
          if p.role.Producer? { empty := empty - 1; } else { full := full - 1; }
          procs[k] := p.(pc := P.WaitBinary, asleep := false);
        case WaitBinary =>
          binary := binary - 1;
          procs[k] := p.(pc := P.Body(First(p.role)), asleep := false);
        case Body(_) =>
          binary := binary + 1;
          procs[k] := p.(pc := P.PostSecond);
        case PostSecond =>
          if p.role.Producer? { full := full + 1; } else { empty := empty + 1; }
          procs[k] := p.(pc := P.TestFlag);
      }
      assert procs[..] == P.StepProc(old(Abs()), k).procs;
    }

    /** The next statement of process k in the section. */
    method SectionStep(k: nat)
      requires Valid() && k < procs.Length && procs[k].running && procs[k].pc.Body? && !procs[k].pc.at.Finished?
      modifies ring, ring.buf, procs
      ensures Abs() == P.StepProc(old(Abs()), k)
    {
      var p := procs[k];
      SectionIsSafe(Abs(), k);
      ring.Statement(p.role, p.pc.at);
      procs[k] := p.(pc := P.Body(Next(p.role, p.pc.at)));
      assert procs[..] == P.StepProc(old(Abs()), k).procs;
    }

    /** One step of the loop of process k; false when its sem_wait has to wait, which puts it to sleep. */
    method Step(k: nat) returns (moved: bool)
      requires Valid() && k < procs.Length && procs[k].running
      modifies this, ring, ring.buf, procs
      ensures Valid() && moved == P.Enabled(old(Abs()), P.Step(k))
      ensures Abs() == P.Apply(old(Abs()), if moved then P.Step(k) else P.Sleep(k))
    {
      var p := procs[k];
      var first := if p.role.Producer? then empty else full;
      moved := !((p.pc.WaitFirst? && first == 0) || (p.pc.WaitBinary? && binary == 0));
      R.ApplyKeepsInv(Abs(), if moved then P.Step(k) else P.Sleep(k));
      if !moved {
        procs[k] := p.(asleep := true);
        assert procs[..] == P.Apply(old(Abs()), P.Sleep(k)).procs;
      } else if p.pc.Body? && !p.pc.at.Finished? {
        SectionStep(k);
      } else {
        SemaphoreStep(k);
      }
    }

    /** SIGINT, an interrupted sem_wait, or SIGALRM. */
    method Fault(a: P.Action)
      requires Valid() && P.Enabled(Abs(), a) && !a.Step? && !a.Sleep?
      modifies this, procs
      ensures Valid() && Abs() == P.Apply(old(Abs()), a)
    {
      ghost var s := Abs();
      R.ApplyKeepsInv(s, a);
      var p := procs[a.proc];
      if a.Sigint? {
        procs[a.proc] := p.(flag := false);
      } else {
        if a.Eintr? && p.pc.WaitBinary? { interrupted := interrupted + 1; }
        procs[a.proc] := P.Gone(p);
      }
      assert procs[..] == P.Apply(s, a).procs;
    }
  }

  lemma SectionIsSafe(s: P.State, k: nat)
    requires V.Inv(R.Abs(s)) && k < |s.procs| && s.procs[k].pc.Body?
    ensures Belongs(s.procs[k].role, s.procs[k].pc.at)
    ensures Consistent(s.ring, s.procs[k].role, s.procs[k].pc.at) && Room(s.ring, s.procs[k].pc.at)
  {
    assert V.Inside(R.Abs(s).procs[k]);
    V.InsiderHasRoom(R.Abs(s), k);
  }
}
