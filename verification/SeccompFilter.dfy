/**
 The system-call filter that restore/process-boundary.c installs.

 A classic BPF program is a list of instructions over one 32-bit accumulator;
 its jumps are relative and only go forward.  The program is modelled as the
 data the C file assembles, the kernel's evaluation of it as `Run`, and the
 intent of the filter as `Policy`, which never mentions instructions or masks.
 */
module SeccompFilter {
  import opened Common

  type Word = bv32

  datatype Instruction =
    | LoadAbs(offset: nat)
    | And(mask: Word)
    | JumpEq(k: Word, jt: nat, jf: nat)
    | JumpGe(k: Word, jt: nat, jf: nat)
    | Ret(action: Word)

  /** The part of `struct seccomp_data` the filter reads. */
  datatype Call = Call(nr: Word, arch: Word, arg0: bv64)

  // Actions and errno values, as in linux/seccomp.h and asm-generic/errno.h.
  const RET_KILL_PROCESS: Word := 0x8000_0000
  const RET_ERRNO: Word := 0x0005_0000
  const RET_ALLOW: Word := 0x7fff_0000
  const EPERM: Word := 1
  const ENOSYS: Word := 38
  const REJECT: Word := RET_ERRNO | EPERM

  // Clone flags, as in linux/sched.h.
  const CLONE_VM: Word := 0x0000_0100
  const CLONE_FS: Word := 0x0000_0200
  const CLONE_FILES: Word := 0x0000_0400
  const CLONE_SIGHAND: Word := 0x0000_0800
  const CLONE_THREAD: Word := 0x0001_0000
  const CLONE_SYSVSEM: Word := 0x0004_0000
  const CLONE_SETTLS: Word := 0x0008_0000
  const CLONE_PARENT_SETTID: Word := 0x0010_0000
  const CLONE_CHILD_CLEARTID: Word := 0x0020_0000
  const CLONE_DETACHED: Word := 0x0040_0000
  const CLONE_CHILD_SETTID: Word := 0x0100_0000

  const REQUIRED_THREAD_FLAGS: Word := CLONE_VM | CLONE_SIGHAND | CLONE_THREAD
  const ALLOWED_THREAD_FLAGS: Word :=
    REQUIRED_THREAD_FLAGS | CLONE_FS | CLONE_FILES | CLONE_SYSVSEM | CLONE_SETTLS
    | CLONE_PARENT_SETTID | CLONE_CHILD_CLEARTID | CLONE_CHILD_SETTID | CLONE_DETACHED

  const X32_BASE: Word := 0x4000_0000

  // Offsets into `struct seccomp_data`.
  const OFFSET_NR: nat := 0
  const OFFSET_ARCH: nat := 4
  const OFFSET_ARG0: nat := 16

  function Low(x: bv64): Word { (x & 0xffff_ffff) as bv32 }

  function High(x: bv64): Word { (x >> 32) as bv32 }

  function Load(data: Call, offset: nat): Option<Word> {
    if offset == OFFSET_NR then Some(data.nr)
    else if offset == OFFSET_ARCH then Some(data.arch)
    else if offset == OFFSET_ARG0 then Some(Low(data.arg0))
    else if offset == OFFSET_ARG0 + 4 then Some(High(data.arg0))
    else None
  }

  /** What one instruction does: skip ahead with a new accumulator, stop, or fault. */
  datatype Effect = Next(skip: nat, acc: Word) | Stop(action: Word) | Fault

  function Step(instruction: Instruction, acc: Word, data: Call): Effect {
    match instruction
    case LoadAbs(offset) =>
      (match Load(data, offset) case None => Fault case Some(w) => Next(0, w))
    case And(mask) => Next(0, acc & mask)
    case JumpEq(k, jt, jf) => Next(if acc == k then jt else jf, acc)
    case JumpGe(k, jt, jf) => Next(if acc >= k then jt else jf, acc)
    case Ret(action) => Stop(action)
  }

  /**
   Evaluation from `pc` with accumulator `acc`.  None means that evaluation
   left the program or read outside the modelled data; the program counter
   strictly increases, so evaluation always stops.
   */
  function Run(program: seq<Instruction>, pc: nat, acc: Word, data: Call): Option<Word>
    decreases |program| - pc
  {
    if pc >= |program| then None
    else match Step(program[pc], acc, data)
      case Next(skip, acc') => Run(program, pc + 1 + skip, acc', data)
      case Stop(action) => Some(action)
      case Fault => None
  }

  /** One denied system call and the action that answers it. */
  datatype Denial = Denial(nr: Word, action: Word)

  /** Everything about the target ABI that the preprocessor decides. */
  datatype Abi = Abi(arch: Word, x32: bool, denials: seq<Denial>, clone: Word)

  function Prologue(arch: Word): seq<Instruction> {
    [LoadAbs(OFFSET_ARCH), JumpEq(arch, 1, 0), Ret(RET_KILL_PROCESS), LoadAbs(OFFSET_NR)]
  }

  function X32Block(x32: bool): seq<Instruction> {
    if x32 then [JumpGe(X32_BASE, 0, 1), Ret(RET_KILL_PROCESS)] else []
  }

  function DenyBlocks(denials: seq<Denial>): seq<Instruction> {
    if denials == [] then []
    else [JumpEq(denials[0].nr, 0, 1), Ret(denials[0].action)] + DenyBlocks(denials[1..])
  }

  /** Reject unless the loaded low word, masked, is the given value. */
  function MaskTest(mask: Word, value: Word): seq<Instruction> {
    [LoadAbs(OFFSET_ARG0), And(mask), JumpEq(value, 1, 0), Ret(REJECT)]
  }

  function HighTest(): seq<Instruction> {
    [LoadAbs(OFFSET_ARG0 + 4), JumpEq(0, 1, 0), Ret(REJECT)]
  }

  function CloneGate(clone: Word): seq<Instruction> {
    [JumpEq(clone, 1, 0), Ret(RET_ALLOW)]
  }

  function FlagTests(): seq<Instruction> {
    MaskTest(REQUIRED_THREAD_FLAGS, REQUIRED_THREAD_FLAGS)
    + (MaskTest(!ALLOWED_THREAD_FLAGS, 0) + [Ret(RET_ALLOW)])
  }

  function CloneBlock(clone: Word): seq<Instruction> {
    CloneGate(clone) + (HighTest() + FlagTests())
  }

  function Program(abi: Abi): seq<Instruction> {
    Prologue(abi.arch) + (X32Block(abi.x32) + (DenyBlocks(abi.denials) + CloneBlock(abi.clone)))
  }

  // ---------------------------------------------------------------- policy

  const REQUIRED_FLAGS: set<Word> := {CLONE_VM, CLONE_SIGHAND, CLONE_THREAD}

  const ALLOWED_FLAGS: set<Word> :=
    {CLONE_VM, CLONE_SIGHAND, CLONE_THREAD, CLONE_FS, CLONE_FILES, CLONE_SYSVSEM, CLONE_SETTLS,
     CLONE_PARENT_SETTID, CLONE_CHILD_CLEARTID, CLONE_CHILD_SETTID, CLONE_DETACHED}

  predicate IsFlag(b: Word) { b != 0 && b & (b - 1) == 0 }

  predicate Carries(arg0: bv64, f: Word) { arg0 & (f as bv64) != 0 }

  /** A clone request that creates a thread of the caller and nothing else. */
  ghost predicate ThreadOnly(arg0: bv64) {
    && arg0 < 0x1_0000_0000
    && (forall f :: f in REQUIRED_FLAGS ==> Carries(arg0, f))
    && (forall f :: IsFlag(f) && Carries(arg0, f) ==> f in ALLOWED_FLAGS)
  }

  /** The first denial that names the call, if any. */
  function FirstDenial(denials: seq<Denial>, nr: Word): (r: Option<Word>)
    ensures r.None? <==> forall i :: 0 <= i < |denials| ==> denials[i].nr != nr
    ensures r.Some? ==>
      exists i :: 0 <= i < |denials| && denials[i] == Denial(nr, r.value) &&
        forall j :: 0 <= j < i ==> denials[j].nr != nr
  {
    if denials == [] then None
    else if denials[0].nr == nr then
      assert denials[0] == Denial(nr, denials[0].action);
      Some(denials[0].action)
    else
      var r := FirstDenial(denials[1..], nr);
      assert r.Some? ==>
        exists i :: 0 <= i < |denials| && denials[i] == Denial(nr, r.value) &&
          forall j :: 0 <= j < i ==> denials[j].nr != nr
      by {
        if r.Some? {
          var k :| 0 <= k < |denials[1..]| && denials[1..][k] == Denial(nr, r.value) &&
            forall j :: 0 <= j < k ==> denials[1..][j].nr != nr;
          assert denials[k + 1] == Denial(nr, r.value);
          assert forall j :: 0 < j < k + 1 ==> denials[j] == denials[1..][j - 1];
        }
      }
      r
  }

  ghost function Policy(abi: Abi, data: Call): Word {
    if data.arch != abi.arch then RET_KILL_PROCESS
    else if abi.x32 && data.nr >= X32_BASE then RET_KILL_PROCESS
    else match FirstDenial(abi.denials, data.nr)
      case Some(action) => action
      case None =>
        if data.nr == abi.clone && !ThreadOnly(data.arg0) then REJECT else RET_ALLOW
  }

  // ---------------------------------------------------------------- proofs

  /** Jumps are relative, so a program behaves the same behind any prefix. */
  lemma {:induction false} RunBehindPrefix(a: seq<Instruction>, b: seq<Instruction>, pc: nat, acc: Word, data: Call)
    ensures Run(a + b, |a| + pc, acc, data) == Run(b, pc, acc, data)
    decreases |b| - pc
  {
    if pc < |b| {
      assert (a + b)[|a| + pc] == b[pc];
      var effect := Step(b[pc], acc, data);
      if effect.Next? {
        RunBehindPrefix(a, b, pc + 1 + effect.skip, effect.acc, data);
      }
    }
  }

  /** A list of compiled deny blocks answers with the first denial or falls through unchanged. */
  lemma {:induction false} DenyBlocksMeetList(denials: seq<Denial>, rest: seq<Instruction>, data: Call)
    ensures Run(DenyBlocks(denials) + rest, 0, data.nr, data)
         == match FirstDenial(denials, data.nr)
            case Some(action) => Some(action)
            case None => Run(rest, 0, data.nr, data)
  {
    if denials == [] {
      assert DenyBlocks(denials) + rest == rest;
    } else {
      var head := [JumpEq(denials[0].nr, 0, 1), Ret(denials[0].action)];
      var tail := DenyBlocks(denials[1..]) + rest;
      assert DenyBlocks(denials) + rest == head + tail;
      if denials[0].nr != data.nr {
        RunBehindPrefix(head, tail, 0, data.nr, data);
        DenyBlocksMeetList(denials[1..], rest, data);
      }
    }
  }

  /** The two mask tests that the clone block makes on the low word. */
  predicate AllRequired(low: Word) { low & REQUIRED_THREAD_FLAGS == REQUIRED_THREAD_FLAGS }

  predicate NoneOutside(low: Word) { low & !ALLOWED_THREAD_FLAGS == 0 }

  predicate MaskTests(low: Word) { AllRequired(low) && NoneOutside(low) }

  function Gate(value: Word): seq<Instruction> { [JumpEq(value, 1, 0), Ret(REJECT)] }

  /** A test that skips the rejection behind it exactly on equality. */
  lemma GateRuns(value: Word, rest: seq<Instruction>, acc: Word, data: Call)
    ensures Run(Gate(value) + rest, 0, acc, data)
         == if acc == value then Run(rest, 0, acc, data) else Some(REJECT)
  {
    var p := Gate(value) + rest;
    assert p[0] == JumpEq(value, 1, 0) && p[1] == Ret(REJECT);
    RunBehindPrefix(Gate(value), rest, 0, acc, data);
  }

  lemma LoadRuns(offset: nat, rest: seq<Instruction>, acc: Word, data: Call)
    requires Load(data, offset).Some?
    ensures Run([LoadAbs(offset)] + rest, 0, acc, data) == Run(rest, 0, Load(data, offset).value, data)
  {
    assert ([LoadAbs(offset)] + rest)[0] == LoadAbs(offset);
    RunBehindPrefix([LoadAbs(offset)], rest, 0, Load(data, offset).value, data);
  }

  lemma AndRuns(mask: Word, rest: seq<Instruction>, acc: Word, data: Call)
    ensures Run([And(mask)] + rest, 0, acc, data) == Run(rest, 0, acc & mask, data)
  {
    assert ([And(mask)] + rest)[0] == And(mask);
    RunBehindPrefix([And(mask)], rest, 0, acc & mask, data);
  }

  lemma MaskTestRuns(mask: Word, value: Word, rest: seq<Instruction>, acc: Word, data: Call)
    ensures Run(MaskTest(mask, value) + rest, 0, acc, data)
         == if Low(data.arg0) & mask == value then Run(rest, 0, Low(data.arg0) & mask, data) else Some(REJECT)
  {
    assert MaskTest(mask, value) + rest == [LoadAbs(OFFSET_ARG0)] + ([And(mask)] + (Gate(value) + rest));
    LoadRuns(OFFSET_ARG0, [And(mask)] + (Gate(value) + rest), acc, data);
    AndRuns(mask, Gate(value) + rest, Low(data.arg0), data);
    GateRuns(value, rest, Low(data.arg0) & mask, data);
  }

  lemma FlagTestsRun(acc: Word, data: Call)
    ensures Run(FlagTests(), 0, acc, data)
         == Some(if MaskTests(Low(data.arg0)) then RET_ALLOW else REJECT)
  {
    var low := Low(data.arg0);
    MaskTestRuns(REQUIRED_THREAD_FLAGS, REQUIRED_THREAD_FLAGS,
                 MaskTest(!ALLOWED_THREAD_FLAGS, 0) + [Ret(RET_ALLOW)], acc, data);
    MaskTestRuns(!ALLOWED_THREAD_FLAGS, 0, [Ret(RET_ALLOW)], low & REQUIRED_THREAD_FLAGS, data);
  }

  lemma HighTestRuns(rest: seq<Instruction>, acc: Word, data: Call)
    ensures Run(HighTest() + rest, 0, acc, data)
         == if High(data.arg0) == 0 then Run(rest, 0, High(data.arg0), data) else Some(REJECT)
  {
    assert HighTest() + rest == [LoadAbs(OFFSET_ARG0 + 4)] + (Gate(0) + rest);
    LoadRuns(OFFSET_ARG0 + 4, Gate(0) + rest, acc, data);
    GateRuns(0, rest, High(data.arg0), data);
  }

  lemma CloneBlockRuns(clone: Word, data: Call)
    ensures Run(CloneBlock(clone), 0, data.nr, data)
         == Some(if data.nr == clone && !(High(data.arg0) == 0 && MaskTests(Low(data.arg0)))
                 then REJECT else RET_ALLOW)
  {
    RunBehindPrefix(CloneGate(clone), HighTest() + FlagTests(), 0, data.nr, data);
    HighTestRuns(FlagTests(), data.nr, data);
    FlagTestsRun(High(data.arg0), data);
  }

  lemma X32BlockRuns(x32: bool, rest: seq<Instruction>, data: Call)
    ensures Run(X32Block(x32) + rest, 0, data.nr, data)
         == if x32 && data.nr >= X32_BASE then Some(RET_KILL_PROCESS) else Run(rest, 0, data.nr, data)
  {
    if x32 {
      RunBehindPrefix(X32Block(x32), rest, 0, data.nr, data);
    } else {
      assert X32Block(x32) + rest == rest;
    }
  }

  lemma PrologueRuns(arch: Word, rest: seq<Instruction>, data: Call)
    ensures Run(Prologue(arch) + rest, 0, 0, data)
         == if data.arch != arch then Some(RET_KILL_PROCESS) else Run(rest, 0, data.nr, data)
  {
    var p := Prologue(arch) + rest;
    assert Run(p, 0, 0, data) == Run(p, 1, data.arch, data);
    assert Run(p, 1, data.arch, data) == Run(p, if data.arch == arch then 3 else 2, data.arch, data);
    RunBehindPrefix(Prologue(arch), rest, 0, data.nr, data);
  }

  lemma HalvesOfWord(x: bv64)
    ensures High(x) == 0 <==> x < 0x1_0000_0000
  {}

  lemma LowWordCarries(x: bv64, f: Word)
    ensures Carries(x, f) <==> Low(x) & f != 0
  {}

  lemma RequiredFlagsCarried(arg0: bv64)
    ensures AllRequired(Low(arg0)) <==> forall f :: f in REQUIRED_FLAGS ==> Carries(arg0, f)
  {}

  lemma AllowedBit(f: Word)
    requires IsFlag(f)
    ensures f & ALLOWED_THREAD_FLAGS != 0 <==> f in ALLOWED_FLAGS
  {}

  /** Any word with a bit outside the mask has a whole flag there: its lowest such bit. */
  lemma LowestOutside(low: Word) returns (f: Word)
    requires !NoneOutside(low)
    ensures IsFlag(f) && low & f != 0 && f & ALLOWED_THREAD_FLAGS == 0
  {
    var w := low & !ALLOWED_THREAD_FLAGS;
    f := w & (!w + 1);
  }

  lemma OutsideFlag(arg0: bv64) returns (f: Word)
    requires !NoneOutside(Low(arg0))
    ensures IsFlag(f) && Carries(arg0, f) && f !in ALLOWED_FLAGS
  {
    f := LowestOutside(Low(arg0));
    LowWordCarries(arg0, f);
    AllowedBit(f);
  }

  lemma InsideFlag(arg0: bv64, f: Word)
    requires NoneOutside(Low(arg0)) && IsFlag(f) && Carries(arg0, f)
    ensures f in ALLOWED_FLAGS
  {}

  /** No bit outside the mask is set exactly when every flag of the request is an allowed one. */
  lemma AllowedFlagsCarried(arg0: bv64)
    ensures NoneOutside(Low(arg0)) <==> forall f :: IsFlag(f) && Carries(arg0, f) ==> f in ALLOWED_FLAGS
  {
    if NoneOutside(Low(arg0)) {
      forall f | IsFlag(f) && Carries(arg0, f) { InsideFlag(arg0, f); }
    } else {
      var f := OutsideFlag(arg0);
    }
  }

  /** The word tests of the clone block decide exactly the flag-level policy. */
  lemma MasksDecideThreadOnly(arg0: bv64)
    ensures High(arg0) == 0 && MaskTests(Low(arg0)) <==> ThreadOnly(arg0)
  {
    HalvesOfWord(arg0);
    RequiredFlagsCarried(arg0);
    AllowedFlagsCarried(arg0);
  }

  /**
   For every ABI description and every call the installed program stops in a
   RET and returns the action of the policy.
   */
  lemma FilterMeetsPolicy(abi: Abi, data: Call)
    ensures Run(Program(abi), 0, 0, data) == Some(Policy(abi, data))
  {
    var deny := DenyBlocks(abi.denials) + CloneBlock(abi.clone);
    PrologueRuns(abi.arch, X32Block(abi.x32) + deny, data);
    X32BlockRuns(abi.x32, deny, data);
    DenyBlocksMeetList(abi.denials, CloneBlock(abi.clone), data);
    CloneBlockRuns(abi.clone, data);
    MasksDecideThreadOnly(data.arg0);
  }

  // ---------------------------------------------------------------- the two ABIs

  const AARCH64: Abi := Abi(0xC000_00B7, false, [Denial(435, RET_ERRNO | ENOSYS), Denial(425, REJECT)], 220)

  const X86_64: Abi := Abi(
    0xC000_003E, true,
    [Denial(57, REJECT), Denial(58, REJECT), Denial(435, RET_ERRNO | ENOSYS), Denial(425, REJECT)],
    56)

  /** fork, vfork and io_uring_setup fail with EPERM and clone3 with ENOSYS, whatever the arguments. */
  lemma ProcessCreationDenied(data: Call)
    requires data.arch == X86_64.arch
    ensures data.nr in {57, 58, 425} ==> Run(Program(X86_64), 0, 0, data) == Some(REJECT)
    ensures data.nr == 435 ==> Run(Program(X86_64), 0, 0, data) == Some(RET_ERRNO | ENOSYS)
    ensures data.nr == 56 ==>
      (Run(Program(X86_64), 0, 0, data) == Some(RET_ALLOW) <==> ThreadOnly(data.arg0))
  {
    FilterMeetsPolicy(X86_64, data);
    var denials := X86_64.denials;
    assert denials[0].nr == 57 && denials[1].nr == 58 && denials[2].nr == 435 && denials[3].nr == 425;
  }

  /** The same on AArch64, which has no fork or vfork call. */
  lemma ProcessCreationDeniedOnArm(data: Call)
    requires data.arch == AARCH64.arch
    ensures data.nr == 425 ==> Run(Program(AARCH64), 0, 0, data) == Some(REJECT)
    ensures data.nr == 435 ==> Run(Program(AARCH64), 0, 0, data) == Some(RET_ERRNO | ENOSYS)
    ensures data.nr == 220 ==>
      (Run(Program(AARCH64), 0, 0, data) == Some(RET_ALLOW) <==> ThreadOnly(data.arg0))
  {
    FilterMeetsPolicy(AARCH64, data);
    var denials := AARCH64.denials;
    assert denials[0].nr == 435 && denials[1].nr == 425;
  }

  // ---------------------------------------------------------------- the answers in numbers

  lemma ThreadMasks(low: Word)
    ensures MaskTests(low) <==> low & 0x0001_0900 == 0x0001_0900 && low & 0xfe82_f0ff == 0
  {
    assert REQUIRED_THREAD_FLAGS == 0x0001_0900;
    assert ALLOWED_THREAD_FLAGS == 0x017d_0f00;
  }

  /** The answer to `clone` by its argument words. */
  function CloneAnswer(arg0: bv64): Word {
    WordsAnswer(High(arg0), Low(arg0))
  }

  function WordsAnswer(high: Word, low: Word): Word {
    if high == 0 && low & 0x0001_0900 == 0x0001_0900 && low & 0xfe82_f0ff == 0 then 0x7fff_0000 else 0x0005_0001
  }

  lemma WordsAnswers(high: Word, low: Word, allowed: bool)
    requires allowed <==> high == 0 && MaskTests(low)
    ensures WordsAnswer(high, low) == if allowed then RET_ALLOW else REJECT
  {
    ThreadMasks(low);
    assert REJECT == 0x0005_0001;
  }

  lemma CloneAnswers(arg0: bv64)
    ensures CloneAnswer(arg0) == if ThreadOnly(arg0) then RET_ALLOW else REJECT
  {
    MasksDecideThreadOnly(arg0);
    WordsAnswers(High(arg0), Low(arg0), ThreadOnly(arg0));
  }

  /** Every answer of the x86-64 filter, numbers as in the kernel's headers. */
  lemma AnswersOnX86(data: Call)
    ensures Run(Program(X86_64), 0, 0, data) == Some(
      if data.arch != 0xC000_003E || data.nr >= 0x4000_0000 then 0x8000_0000
      else if data.nr in {57, 58, 425} then 0x0005_0001
      else if data.nr == 435 then 0x0005_0026
      else if data.nr == 56 then CloneAnswer(data.arg0)
      else 0x7fff_0000)
  {
    FilterMeetsPolicy(X86_64, data);
    CloneAnswers(data.arg0);
    var denials := X86_64.denials;
    assert denials[0].nr == 57 && denials[1].nr == 58 && denials[2].nr == 435 && denials[3].nr == 425;
    assert RET_ERRNO | ENOSYS == 0x0005_0026 && REJECT == 0x0005_0001;
  }

  /** Every answer of the AArch64 filter. */
  lemma AnswersOnArm(data: Call)
    ensures Run(Program(AARCH64), 0, 0, data) == Some(
      if data.arch != 0xC000_00B7 then 0x8000_0000
      else if data.nr == 435 then 0x0005_0026
      else if data.nr == 425 then 0x0005_0001
      else if data.nr == 220 then CloneAnswer(data.arg0)
      else 0x7fff_0000)
  {
    FilterMeetsPolicy(AARCH64, data);
    CloneAnswers(data.arg0);
    var denials := AARCH64.denials;
    assert denials[0].nr == 435 && denials[1].nr == 425;
    assert RET_ERRNO | ENOSYS == 0x0005_0026 && REJECT == 0x0005_0001;
  }

  /** The flags with which the C library starts a thread are allowed. */
  lemma LibraryThreadsAllowed(data: Call)
    requires data == Call(56, 0xC000_003E, 0x003d_0f00)
    ensures Run(Program(X86_64), 0, 0, data) == Some(0x7fff_0000)
  {
    AnswersOnX86(data);
    assert Low(0x003d_0f00) == 0x003d_0f00 && High(0x003d_0f00) == 0;
  }

  /** Where the kernel keeps the number, the architecture and the two words of the first argument. */
  lemma DataLayout(data: Call)
    ensures Load(data, 0) == Some(data.nr) && Load(data, 4) == Some(data.arch)
    ensures Load(data, 16) == Some((data.arg0 & 0xffff_ffff) as Word)
    ensures Load(data, 20) == Some((data.arg0 >> 32) as Word)
    ensures forall offset: nat :: offset !in {0, 4, 16, 20} ==> Load(data, offset) == None
  {}
}
