/** The int 8h handler: a day counter in two 16-bit words and the countdown of the floppy motor. */
module BiosTimer {

  const WORD: nat := 0x1_0000
  const BYTE: nat := 0x100
  /** The ticks of one day: 18h in the high word and 0B0h in the low one. */
  const DAY: nat := 0x18_00B0
  const MOTOR_OFF: nat := 0x0C

  /** The BIOS data area from segment 40h that the handler works on, and the commands sent to port 3F2h. */
  datatype Area = Area(low: nat, high: nat, midnight: nat, motor: nat, flags: nat, commands: seq<nat>)

  ghost predicate WellFormed(a: Area) {
    a.low < WORD && a.high < WORD && a.midnight < BYTE && a.motor < BYTE && a.flags < BYTE
  }

  function TickLow(a: Area): nat { (a.low + 1) % WORD }

  function TickHigh(a: Area): nat { if TickLow(a) == 0 then (a.high + 1) % WORD else a.high }

  predicate DayIsOver(a: Area) { TickHigh(a) == 0x18 && TickLow(a) == 0xB0 }

  function TickMotor(a: Area): nat { (a.motor + BYTE - 1) % BYTE }

  /** One interrupt. */
  function Tick(a: Area): Area {
    Area(
      if DayIsOver(a) then 0 else TickLow(a),
      if DayIsOver(a) then 0 else TickHigh(a),
      if DayIsOver(a) then 1 else a.midnight,
      TickMotor(a),
      if TickMotor(a) == 0 then a.flags - a.flags % 16 else a.flags,
      if TickMotor(a) == 0 then a.commands + [MOTOR_OFF] else a.commands)
  }

  /** The memory cells and the handler that changes them. */
  class DataArea {
    var low: nat         // word 6Ch
    var high: nat        // word 6Eh
    var midnight: nat    // byte 70h
    var motor: nat       // byte 40h
    var flags: nat       // byte 3Fh
    ghost var commands: seq<nat>

    ghost function Abs(): Area
      reads this
    {
      Area(low, high, midnight, motor, flags, commands)
    }

    /** The handler from the increment of 6Ch to the restored ax after the label loc_3; ax and al are the
        registers, both 0 at the start. */
    method Interrupt() returns (al: nat)
      requires WellFormed(Abs())
      modifies this
      ensures WellFormed(Abs()) && Abs() == Tick(old(Abs()))
      ensures al == if old(Count(Abs())) == DAY - 1 then 8 else 0
    {
      var ax := 0;
      al := 0;
      low := (low + 1) % WORD;
      if low == 0 {
        high := (high + 1) % WORD;
      }
      if high == 0x18 {
        if low == 0xB0 {
          high := ax;
          low := ax;
          midnight := 1;
          al := 8;
        }
      }
      motor := (motor + BYTE - 1) % BYTE;
      if motor == 0 {
        flags := flags - flags % 16;
        commands := commands + [MOTOR_OFF];
      }
    }
  }

  ghost function Ticks(a: Area, n: nat): Area {
    if n == 0 then a else Tick(Ticks(a, n - 1))
  }

  /** The two words as one number. */
  ghost function Count(a: Area): nat { a.high * WORD + a.low }

  /** The number of ticks that the counter has been through since it was last 0, for any start: below a
      day it goes round the day; from a day on it has missed the reset and must first overflow. */
  ghost function CountAfter(start: nat, n: nat): nat {
    if start < DAY then (start + n) % DAY
    else if start + n < WORD * WORD then start + n
    else (start + n - WORD * WORD) % DAY
  }

  ghost predicate DayCompleted(start: nat, n: nat) {
    if start < DAY then start + n >= DAY else start + n >= WORD * WORD + DAY
  }

  /** What one interrupt does to the counter as one number. */
  lemma TickCount(a: Area)
    requires WellFormed(a)
    ensures WellFormed(Tick(a))
    ensures Count(Tick(a)) ==
            if Count(a) == DAY - 1 then 0 else if Count(a) == WORD * WORD - 1 then 0 else Count(a) + 1
    ensures DayIsOver(a) <==> Count(a) == DAY - 1
  {
  }

  lemma DayStep(x: nat)
    ensures (x + 1) % DAY == if x % DAY == DAY - 1 then 0 else x % DAY + 1
    ensures (x + 1) / DAY == if x % DAY == DAY - 1 then x / DAY + 1 else x / DAY
  {
  }

  /** The closed form takes the same step as the counter. */
  lemma CountStep(start: nat, n: nat)
    requires start < WORD * WORD
    ensures CountAfter(start, n) < WORD * WORD
    ensures var c := CountAfter(start, n);
            && CountAfter(start, n + 1) == (if c == DAY - 1 then 0 else if c == WORD * WORD - 1 then 0 else c + 1)
            && (DayCompleted(start, n + 1) <==> DayCompleted(start, n) || c == DAY - 1)
  {
    var x := start + n;
    if start < DAY { DayStep(x); }
    else if x >= WORD * WORD { DayStep(x - WORD * WORD); }
  }

  /** n interrupts from any start: the closed form of the counter, and the midnight byte, which is set
      exactly when a day was completed. */
  lemma {:induction false} CounterClosedForm(a: Area, n: nat)
    requires WellFormed(a)
    ensures WellFormed(Ticks(a, n))
    ensures Count(Ticks(a, n)) == CountAfter(Count(a), n)
    ensures Ticks(a, n).midnight == if DayCompleted(Count(a), n) then 1 else a.midnight
  {
    if n == 0 {
      assert Count(a) < WORD * WORD;
    } else {
      CounterClosedForm(a, n - 1);
      TickCount(Ticks(a, n - 1));
      CountStep(Count(a), n - 1);
    }
  }

  /** From a start below a day, n interrupts leave (start + n) mod 1573040, and the midnight byte, if
      it was 0, is 1 exactly when a day was completed. */
  lemma CounterWithinDay(a: Area, n: nat)
    requires WellFormed(a) && Count(a) < DAY && a.midnight == 0
    ensures Count(Ticks(a, n)) == (Count(a) + n) % 1573040
    ensures Ticks(a, n).midnight == 1 <==> Count(a) + n >= 1573040
  {
    CounterClosedForm(a, n);
  }

  /** The number of interrupts until the midnight byte is set, for every start. */
  ghost function UntilMidnight(start: nat): int {
    if start < DAY then DAY - start else WORD * WORD - start + DAY
  }

  lemma MidnightIff(a: Area, n: nat)
    requires WellFormed(a) && a.midnight == 0
    ensures Ticks(a, n).midnight == 1 <==> n >= UntilMidnight(Count(a))
    ensures Ticks(a, n).midnight == 0 <==> n < UntilMidnight(Count(a))
  {
    CounterClosedForm(a, n);
  }

  /** A day's worth of interrupts sets the midnight byte exactly when the start is a time of day, and only
      then has the counter come round to where it was. */
  lemma DayIsNoticedIff(a: Area)
    requires WellFormed(a) && a.midnight == 0
    ensures Ticks(a, DAY).midnight == 1 <==> Count(a) < DAY
    ensures Count(Ticks(a, DAY)) == Count(a) <==> Count(a) < DAY
  {
    MidnightIff(a, DAY);
    CounterClosedForm(a, DAY);
  }

  /** The first start for which it is not: from 1800B0h a day passes unnoticed, and the midnight byte is
      set only after 2^32 interrupts. */
  lemma ResetIsMissed() returns (a: Area)
    ensures WellFormed(a) && a.high == 0x18 && a.low == 0xB0 && a.midnight == 0
    ensures Ticks(a, DAY).midnight == 0 && Count(Ticks(a, DAY)) == 2 * DAY
    ensures Ticks(a, 0xFFFF_FFFF).midnight == 0 && Ticks(a, 0x1_0000_0000).midnight == 1
  {
    a := Area(0xB0, 0x18, 0, 0, 0, []);
    CounterClosedForm(a, DAY);
    MidnightIff(a, DAY);
    MidnightIff(a, 0xFFFF_FFFF);
    MidnightIff(a, 0x1_0000_0000);
  }

  // ---------- The motor ----------

  /** How often the countdown from m reaches 0 in n steps modulo 256. */
  ghost function Expiries(m: nat, n: nat): int {
    (n + (BYTE - m) % BYTE) / BYTE
  }

  /** One step down, modulo 256. */
  lemma DownMod(y: int)
    ensures (y % 256 + 255) % 256 == (y - 1) % 256
  {
  }

  lemma UpDiv(x: int)
    ensures x / 256 == (x - 1) / 256 + if x % 256 == 0 then 1 else 0
  {
  }

  lemma NegMod(x: int)
    ensures -x % 256 == 0 <==> x % 256 == 0
    ensures (256 - x) % 256 == -x % 256
  {
  }

  lemma ExpiryStep(m: nat, n: nat)
    requires m < BYTE && n > 0
    ensures Expiries(m, n) == Expiries(m, n - 1) + if (m - n) % BYTE == 0 then 1 else 0
    ensures Expiries(m, n - 1) >= 0
  {
    var c := if m == 0 then 0 else 256 - m;
    assert (BYTE - m) % BYTE == c;
    UpDiv(n + c);
    NegMod(n + c);
    assert m - n == if m == 0 then -(n + c) else 256 - (n + c);
  }

  /** n interrupts count the motor byte down modulo 256; each time it reaches 0 one command 0Ch goes out to
      switch the motors off, and after the first the low half of the flag byte is clear. */
  lemma {:induction false} MotorClosedForm(a: Area, n: nat)
    requires WellFormed(a)
    ensures Ticks(a, n).motor == (a.motor - n) % BYTE
    ensures Expiries(a.motor, n) >= 0 && Ticks(a, n).commands == a.commands + seq(Expiries(a.motor, n), _ => 0x0C)
    ensures Ticks(a, n).flags == if Expiries(a.motor, n) > 0 then a.flags - a.flags % 16 else a.flags
  {
    if n == 0 {
    } else {
      MotorClosedForm(a, n - 1);
      ExpiryStep(a.motor, n);
      DownMod(a.motor - (n - 1));
    }
  }
}
