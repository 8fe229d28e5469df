/** The emulator's driver loop: while pc lies inside memory, fetch the word
    at pc, move pc past it, and execute it. The loop ends when pc leaves
    memory; any panic on the way ends the program. */
module Machine {

  import opened Wrappers
  import opened Decoder
  import opened Dispatch
  import opened Cpu
  import M = Memory
  import A = Alu

  /** How a run ends: pc left memory, the emulator panicked, or the fuel
      ran out with the loop still going. */
  datatype Outcome = Halted(s: State) | Panicked | OutOfFuel(s: State)

  /** The loop condition: pc addresses a byte of memory. */
  predicate InMemory(s: State)
  {
    s.pc as int < |s.mem|
  }

  /** pc moved past the instruction just fetched. */
  function Advance(s: State): State
    requires s.pc <= 0xFFFF_FFFF_FFFF_FFFB
  {
    s.(pc := s.pc + 4)
  }

  lemma AdvancedPc(s: State)
    requires s.pc <= 0xFFFF_FFFF_FFFF_FFFB
    ensures Advance(s).pc >= 4
    ensures Advance(s).regs == s.regs && Advance(s).mem == s.mem
  {
  }

  /** One trip through the loop body; `None` when the fetch or the
      instruction panics, or when pc + 4 overflows. */
  function Step(sem: Semantics, s: State): Option<State>
  {
    if s.pc > 0xFFFF_FFFF_FFFF_FFFB then None
    else
      match Fetch(sem, s)
      case None => None
      case Some(ins) =>
        AdvancedPc(s);
        Execute(sem, Advance(s), ins)
  }

  /** The loop, with at most `fuel` trips through a body `step`. */
  function Iterate(step: State -> Option<State>, s: State, fuel: nat): Outcome
    decreases fuel
  {
    if !InMemory(s) then Halted(s)
    else if fuel == 0 then OutOfFuel(s)
    else
      match step(s)
      case None => Panicked
      case Some(t) => Iterate(step, t, fuel - 1)
  }

  /** The emulator's loop, with at most `fuel` trips through its body. */
  function Run(sem: Semantics, s: State, fuel: nat): Outcome
  {
    Iterate(t => Step(sem, t), s, fuel)
  }

  /** A step is the instruction the fetch yields, run by its arm with pc
      already advanced: the frame of that arm holds of the step. */
  lemma StepFrame(sem: Semantics, s: State, t: State)
    requires Step(sem, s) == Some(t)
    ensures |t.mem| == |s.mem|
    ensures s.pc <= 0xFFFF_FFFF_FFFF_FFFB
    ensures exists ins :: (Fetch(sem, s) == Some(ins)
      && WritesAtMost(s.regs, t.regs, ins.rd)
      && (KindOf(Arm(sem, ins)) !in {Branches, JumpAndLink, JumpRegister} ==> t.pc == Advance(s).pc))
  {
    var ins :| Fetch(sem, s) == Some(ins);
    AdvancedPc(s);
    ExecuteFrame(sem, Advance(s), ins, Arm(sem, ins), ImmediatesOf(sem, ins), t);
  }

  /** A step fails exactly when the fetch fails, pc + 4 overflows, or the
      instruction is a load or store whose access panics. */
  lemma StepPanics(sem: Semantics, s: State)
    requires Step(sem, s).None?
    ensures s.pc > 0xFFFF_FFFF_FFFF_FFFB || Fetch(sem, s).None?
      || KindOf(Arm(sem, Fetch(sem, s).value)) in {Loads, Stores}
  {
    if s.pc <= 0xFFFF_FFFF_FFFF_FFFB && Fetch(sem, s).Some? {
      var ins := Fetch(sem, s).value;
      AdvancedPc(s);
      OnlyMemoryArmsPanic(sem, Advance(s), ins, Arm(sem, ins), ImmediatesOf(sem, ins));
    }
  }

  /** Running m trips and then n more is running m + n trips. */
  lemma {:induction false} IterateSplit(step: State -> Option<State>, s: State, m: nat, n: nat)
    ensures Iterate(step, s, m + n) ==
      match Iterate(step, s, m)
      case OutOfFuel(t) => Iterate(step, t, n)
      case o => o
    decreases m
  {
    if InMemory(s) && m > 0 {
      match step(s)
      case None =>
      case Some(t) =>
        IterateSplit(step, t, m - 1, n);
        assert m + n - 1 == (m - 1) + n;
    }
  }

  lemma RunSplit(sem: Semantics, s: State, m: nat, n: nat)
    ensures Run(sem, s, m + n) ==
      match Run(sem, s, m)
      case OutOfFuel(t) => Run(sem, t, n)
      case o => o
  {
    IterateSplit(t => Step(sem, t), s, m, n);
  }

  /** Once a run has ended, more fuel changes nothing. */
  lemma RunSettles(sem: Semantics, s: State, m: nat, n: nat)
    requires !Run(sem, s, m).OutOfFuel?
    ensures Run(sem, s, m + n) == Run(sem, s, m)
  {
    RunSplit(sem, s, m, n);
  }

  /** A loop body that never changes the size of memory. */
  ghost predicate KeepsSize(step: State -> Option<State>)
  {
    forall x :: step(x).Some? ==> |step(x).value.mem| == |x.mem|
  }

  /** The emulator's loop body keeps the size of memory. */
  lemma StepKeepsSize(sem: Semantics)
    ensures KeepsSize(t => Step(sem, t))
  {
    forall x | Step(sem, x).Some?
      ensures |Step(sem, x).value.mem| == |x.mem|
    {
      StepFrame(sem, x, Step(sem, x).value);
    }
  }

  /** A loop ends only with pc outside memory, and when its body keeps the
      size of memory, so does every state it passes through. */
  lemma {:induction false} IterateKeepsSize(step: State -> Option<State>, s: State, fuel: nat)
    ensures Iterate(step, s, fuel).Halted? ==> !InMemory(Iterate(step, s, fuel).s)
    ensures KeepsSize(step) && !Iterate(step, s, fuel).Panicked? ==> |Iterate(step, s, fuel).s.mem| == |s.mem|
    decreases fuel
  {
    if InMemory(s) && fuel > 0 {
      match step(s)
      case None =>
      case Some(t) =>
        IterateKeepsSize(step, t, fuel - 1);
    }
  }

  /** A run halts only with pc outside memory, and every state it passes
      through, the last included, keeps the loaded memory's size. */
  lemma RunKeepsSize(sem: Semantics, s: State, fuel: nat)
    ensures Run(sem, s, fuel).Halted? ==> !InMemory(Run(sem, s, fuel).s)
    ensures !Run(sem, s, fuel).Panicked? ==> |Run(sem, s, fuel).s.mem| == |s.mem|
  {
    StepKeepsSize(sem);
    IterateKeepsSize(t => Step(sem, t), s, fuel);
  }

  // ---------------------------------------------------------------------
  // A two-instruction program

  /** `addi x1, x0, 1; addi x1, x1, 1` as little-endian bytes. */
  function CountToTwo(): M.Bytes
  {
    [0x93, 0x00, 0x10, 0x00, 0x93, 0x80, 0x10, 0x00]
  }

  /** Both readings fetch the first word right: at address 0 the slice the
      reads take is the correct one. */
  lemma CountToTwoFirstFetch(sem: Semantics)
    ensures Fetch(sem, New(CountToTwo())) == Some(Decode(0x0010_0093))
  {
    var s := New(CountToTwo());
    FetchWordAsWrittenAtZero(s);
    FetchWordIsa(s, 0, FetchWord(Isa, s).value);
  }

  /** At address 4 the ISA reading fetches the second word, but the read as
      written yields 0. */
  lemma CountToTwoSecondFetch(s: State)
    requires s.pc == 4 && s.mem == CountToTwo()
    ensures Fetch(Isa, s) == Some(Decode(0x0010_8093))
    ensures Fetch(AsWritten, s) == Some(Decode(0))
  {
    FetchWordAsWrittenAtFour(s);
    FetchWordIsa(s, 4, FetchWord(Isa, s).value);
  }

  /** The fields of the two words: rd = x1, rs1 = x0 then x1, immediate 1. */
  lemma CountToTwoFields()
    ensures Decode(0x0010_0093).rd == 1 && Decode(0x0010_0093).rs1 == 0
    ensures ItImmediate(Decode(0x0010_0093)) == 1
    ensures Decode(0x0010_8093).rd == 1 && Decode(0x0010_8093).rs1 == 1
    ensures ItImmediate(Decode(0x0010_8093)) == 1
  {
  }

  /** A step that fetches `ins` executes it with pc advanced. */
  lemma StepExecutes(sem: Semantics, s: State, ins: Instruction)
    requires s.pc <= 0xFFFF_FFFF_FFFF_FFFB && Fetch(sem, s) == Some(ins)
    ensures Advance(s).pc >= 4 && Step(sem, s) == Execute(sem, Advance(s), ins)
  {
    AdvancedPc(s);
  }

  /** An ADDI step: rd receives x[rs1] plus the I-type immediate, pc moves
      to the next word, and memory stays as it was. */
  lemma AddiStep(sem: Semantics, s: State, ins: Instruction)
    requires s.pc <= 0xFFFF_FFFF_FFFF_FFFB
    requires Fetch(sem, s) == Some(ins) && Arm(sem, ins) == Addi
    ensures Step(sem, s) == Some(SetRd(Advance(s), ins.rd, A.Add(ReadReg(s.regs, ins.rs1), ItImmediate(ins))))
  {
    StepExecutes(sem, s, ins);
    AddiArm(sem, Advance(s), ins, ImmediatesOf(sem, ins));
  }

  /** Both readings run the first word as `addi x1, x0, 1`. */
  lemma CountToTwoFirstStep(sem: Semantics)
    ensures Step(sem, New(CountToTwo())) == Some(SetRd(Advance(New(CountToTwo())), 1, 1))
  {
    var s := New(CountToTwo());
    CountToTwoFirstFetch(sem);
    CountToTwoFields();
    AddiExample(sem);
    AddiStep(sem, s, Decode(0x0010_0093));
  }

  /** A step whose instruction takes an arm that does nothing only moves pc
      to the next word. */
  lemma NoOpStep(sem: Semantics, s: State, ins: Instruction)
    requires s.pc <= 0xFFFF_FFFF_FFFF_FFFB
    requires Fetch(sem, s) == Some(ins) && KindOf(Arm(sem, ins)) == DoesNothing
    ensures Step(sem, s) == Some(Advance(s))
  {
    StepExecutes(sem, s, ins);
    NoOpArmsChangeNothing(sem, Advance(s), ins, Arm(sem, ins), ImmediatesOf(sem, ins));
  }

  /** The state after the first word: x1 = 1, pc = 4. */
  function CountToTwoAfterOne(): State
  {
    SetRd(Advance(New(CountToTwo())), 1, 1)
  }

  lemma CountToTwoAfterOneShape()
    ensures CountToTwoAfterOne().pc == 4 && CountToTwoAfterOne().mem == CountToTwo()
    ensures ReadReg(CountToTwoAfterOne().regs, 1) == 1
  {
    ReadAfterWriteReg(Advance(New(CountToTwo())).regs, 1, 1, 1);
  }

  /** The ISA reading runs the second word as `addi x1, x1, 1`. */
  lemma CountToTwoSecondStepIsa()
    ensures Step(Isa, CountToTwoAfterOne()) == Some(SetRd(Advance(CountToTwoAfterOne()), 1, 2))
  {
    var s := CountToTwoAfterOne();
    CountToTwoAfterOneShape();
    CountToTwoSecondFetch(s);
    CountToTwoFields();
    AddiIncrementExample(Isa);
    AddiStep(Isa, s, Decode(0x0010_8093));
  }

  /** As written, the second fetch reads 0, which takes the default arm. */
  lemma CountToTwoSecondStepAsWritten()
    ensures Step(AsWritten, CountToTwoAfterOne()) == Some(Advance(CountToTwoAfterOne()))
  {
    var s := CountToTwoAfterOne();
    CountToTwoAfterOneShape();
    CountToTwoSecondFetch(s);
    ZeroWordExample(AsWritten);
    NoOpStep(AsWritten, s, Decode(0));
  }

  /** One trip through the loop of a run that has not ended. */
  lemma RunStep(sem: Semantics, s: State, fuel: nat, t: State)
    requires InMemory(s) && fuel > 0 && Step(sem, s) == Some(t)
    ensures Run(sem, s, fuel) == Run(sem, t, fuel - 1)
  {
  }

  /** The two readings part ways on the program: the ISA reading halts with
      x1 = 2, the code as written halts with x1 = 1, since its second fetch
      reads 0 and skips the increment. */
  lemma CountToTwoRuns()
    ensures Run(Isa, New(CountToTwo()), 2).Halted?
    ensures ReadReg(Run(Isa, New(CountToTwo()), 2).s.regs, 1) == 2
    ensures Run(AsWritten, New(CountToTwo()), 2).Halted?
    ensures ReadReg(Run(AsWritten, New(CountToTwo()), 2).s.regs, 1) == 1
  {
    var s0 := New(CountToTwo());
    var s1 := CountToTwoAfterOne();
    CountToTwoAfterOneShape();
    var isa := SetRd(Advance(s1), 1, 2);
    var asWritten := Advance(s1);
    ReadAfterWriteReg(Advance(s1).regs, 1, 2, 1);
    assert isa.pc == 8 && asWritten.pc == 8;
    CountToTwoFirstStep(Isa);
    CountToTwoFirstStep(AsWritten);
    CountToTwoSecondStepIsa();
    CountToTwoSecondStepAsWritten();
    RunStep(Isa, s0, 2, s1);
    RunStep(Isa, s1, 1, isa);
    RunStep(AsWritten, s0, 2, s1);
    RunStep(AsWritten, s1, 1, asWritten);
  }
}
