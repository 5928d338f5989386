/** writer_reader.c on semaphores and a shared letter that are updated in place. */
module ReadersWritersProgram {
  import S = Semaphores
  import opened ReadersWriters

  class Program {
    const sems: array<nat>
    const procs: array<Proc>
    var letter: int
    ghost var writes: nat
    ghost var log: seq<Seen>

    ghost function Abs(): State
      reads this, sems, procs
    {
      State(sems[..], letter, procs[..], writes, log)
    }

    ghost predicate Valid()
      reads this, sems, procs
    {
      Inv(Abs())
    }

    constructor (roles: seq<Role>)
      ensures Valid() && Abs() == Init(roles)
      ensures fresh(sems) && fresh(procs)
    {
      sems := new nat[][0, 0, 0, 0];
      procs := new Proc[|roles|](i requires 0 <= i < |roles| => Proc(roles[i], TestFlag, true, true));
      letter, writes, log := LETTER_A, 0, [];
      new;
      InitInv(roles);
      assert sems[..] == [0, 0, 0, 0];
      assert procs[..] == Init(roles).procs;
    }

    /** The reader's printf. */
    method Print(k: nat) returns (printed: int)
      requires Valid() && k < procs.Length && procs[k].running && procs[k].pc.Print?
      modifies this, procs
      ensures Abs() == StepProc(old(Abs()), k)
      ensures printed == LETTER_A + writes % ALPHABET
    {
      ReaderExcludesWriters(Abs(), k);
      printed := letter;
      log := log + [Seen(letter, writes)];
      procs[k] := procs[k].(pc := Leave);
    }

    /** The writer's increment, and the wrap that follows it. */
    method Write(k: nat)
      requires sems.Length == 4 && k < procs.Length && (procs[k].pc.Increment? || procs[k].pc.Wrap?)
      modifies this, procs
      ensures Abs() == StepProc(old(Abs()), k)
      ensures sems[..] == old(sems[..])
    {
      if procs[k].pc.Increment? {
        letter := letter + 1;
        procs[k] := procs[k].(pc := Wrap);
      } else {
        if letter == LETTER_Z + 1 {
          letter := LETTER_A;
        }
        writes := writes + 1;
        procs[k] := procs[k].(pc := Leave);
      }
    }

    /** One step of the loop of process k; false when its semop has to wait. */
    method Step(k: nat) returns (moved: bool)
      requires Valid() && k < procs.Length && procs[k].running
      modifies this, sems, procs
      ensures Valid() && Abs() == Apply(old(Abs()), ReadersWriters.Step(k))
      ensures moved == Enabled(old(Abs()), ReadersWriters.Step(k))
    {
      ApplyKeepsInv(Abs(), ReadersWriters.Step(k));
      ghost var s := Abs();
      var p := procs[k];
      moved := true;
      match p.pc {
        case TestFlag =>
          procs[k] := if p.flag then p.(pc := Enter) else Gone(p);
        case Enter =>
          moved := S.Call(sems, StartGroup(p.role));
          if moved { procs[k] := p.(pc := if p.role.Reader? then ReadersWriters.Print else Increment); }
        case Print =>
          var c := Print(k);
        case Increment => Write(k);
        case Wrap => Write(k);
        case Leave =>
          moved := S.Call(sems, EndGroup(p.role));
          if moved { procs[k] := p.(pc := TestFlag); }
      }
      assert procs[..] == Apply(s, ReadersWriters.Step(k)).procs;
      assert sems[..] == Apply(s, ReadersWriters.Step(k)).sems;
    }

    /** SIGINT, an interrupted semop, or SIGALRM. */
    method Fault(a: Action)
      requires Valid() && Enabled(Abs(), a) && !a.Step?
      modifies procs
      ensures Valid() && Abs() == Apply(old(Abs()), a)
    {
      ApplyKeepsInv(Abs(), a);
      procs[a.proc] := if a.Sigint? then procs[a.proc].(flag := false) else Gone(procs[a.proc]);
    }
  }
}
