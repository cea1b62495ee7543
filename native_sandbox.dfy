/**
 * The native-emitting sandbox of native_generator.py. A `NativeEmittingSystem`
 * holds a fixed 64 KiB byte memory, the same 1024 five-byte rule records as
 * the memory sandbox, a gate per rule, the number of installed rules and the
 * assembly text once it has been emitted; a `NativeSystem` runs the installed
 * gates in order.
 *
 * Unlike the memory sandbox, a gate here runs its primitive on the argument
 * stored in its rule and ignores the rid it is dispatched with. The assembly
 * text that `NativeAssemblyGenerator.generate_kernel` builds is a fixed
 * string, given to the constructors as `kernel`.
 */
module NativeSandbox {
  import opened Base
  import opened Bytes
  import opened RuleRecords

  /** `len(bytearray(65536))`. */
  const MemorySize: nat := 65536

  // ---------------------------------------------------------------------
  // the primitives, as values

  /** The memory after `_delta(p)`: the byte at `p mod 65536` XORed with 0xFF. */
  function DeltaMemory(memory: seq<byte>, p: int): (r: seq<byte>)
    requires |memory| == MemorySize
    ensures |r| == MemorySize
  {
    var q := p % MemorySize;
    memory[q := Flip(memory[q])]
  }

  /** Python's `sum` over a byte string. */
  function SumBytes(bs: seq<byte>): nat {
    if bs == [] then 0 else bs[0] as nat + SumBytes(bs[1..])
  }

  /** What `_fix(p)` returns: the sum of the (up to 16) bytes from `p mod 65536`, modulo 256. */
  function FixValue(memory: seq<byte>, p: int): nat
    requires |memory| == MemorySize
  {
    var q := p % MemorySize;
    SumBytes(PySlice(memory, q, q + 16)) % 256
  }

  /** `_delta` changes the one byte at `p mod 65536`, and applying it twice restores the memory. */
  lemma {:induction false} DeltaFlipsOneByte(memory: seq<byte>, p: int)
    requires |memory| == MemorySize
    ensures DeltaMemory(memory, p)[p % MemorySize] == Flip(memory[p % MemorySize])
    ensures forall j :: 0 <= j < MemorySize && j != p % MemorySize ==> DeltaMemory(memory, p)[j] == memory[j]
    ensures DeltaMemory(DeltaMemory(memory, p), p) == memory
  {
    var q := p % MemorySize;
    assert Flip(Flip(memory[q])) == memory[q];
    assert memory[q := Flip(memory[q])][q := memory[q]] == memory;
  }

  /** Addresses that agree modulo 65536 name the same byte. */
  lemma {:induction false} DeltaWrapsAround(memory: seq<byte>, p: int)
    requires |memory| == MemorySize
    ensures DeltaMemory(memory, p + MemorySize) == DeltaMemory(memory, p)
    ensures FixValue(memory, p + MemorySize) == FixValue(memory, p)
  {
    assert (p + MemorySize) % MemorySize == p % MemorySize;
  }

  /**
   * `_fix(p)` is a byte and reads only the window of (up to) 16 bytes from
   * `p mod 65536`.
   */
  lemma {:induction false} FixReadsItsWindow(m1: seq<byte>, m2: seq<byte>, p: int)
    requires |m1| == MemorySize && |m2| == MemorySize
    requires forall j :: p % MemorySize <= j < p % MemorySize + 16 && j < MemorySize ==> m1[j] == m2[j]
    ensures FixValue(m1, p) < 256
    ensures FixValue(m1, p) == FixValue(m2, p)
  {
    var q := p % MemorySize;
    var w1 := PySlice(m1, q, q + 16);
    var w2 := PySlice(m2, q, q + 16);
    assert |w1| == |w2|;
    assert forall j :: 0 <= j < |w1| ==> w1[j] == m1[q + j] && w2[j] == m2[q + j];
    assert w1 == w2;
  }

  /** A window of zeros sums to zero. */
  lemma {:induction false} SumOfZeros(bs: seq<byte>)
    requires forall j :: 0 <= j < |bs| ==> bs[j] == 0
    ensures SumBytes(bs) == 0
  {
    if bs != [] {
      assert forall j :: 0 <= j < |bs[1..]| ==> bs[1..][j] == bs[j + 1];
      SumOfZeros(bs[1..]);
    }
  }

  /** On fresh memory `_fix` returns 0 at every address. */
  lemma {:induction false} FixOfZeros(p: int)
    ensures FixValue(Zeros(MemorySize), p) == 0
  {
    var q := p % MemorySize;
    var w := PySlice(Zeros(MemorySize), q, q + 16);
    assert forall j :: 0 <= j < |w| ==> w[j] == Zeros(MemorySize)[q + j];
    SumOfZeros(w);
  }

  // ---------------------------------------------------------------------
  // rules and gates

  /** The primitive that a gate runs. */
  datatype GateOp = Delta | Fix | Emit | NoOp

  /**
   * An entry of `gate_table`: the initial `_no_op`, or the closure that
   * `build_gate_from_rule` makes, which binds the primitive and the rule's
   * argument.
   */
  datatype Gate = Bare | Built(op: GateOp, arg: nat)

  /** `{0x01: _delta, 0x02: _fix, 0x03: _emit_assembly}.get(op, _no_op)`. */
  function OpOf(b: byte): GateOp {
    if b == 1 then Delta else if b == 2 then Fix else if b == 3 then Emit else NoOp
  }

  /** The gate that `build_gate_from_rule(rid)` makes from rule `rid`. */
  function GateOf(ruleMem: seq<byte>, rid: nat): Gate
    requires |ruleMem| == 5 * MaxRules && rid < MaxRules
  {
    Built(OpOf(RuleOpcode(ruleMem, rid)), RuleArg(ruleMem, rid))
  }

  /**
   * Opcodes 1, 2 and 3 choose delta, fix and emit, every other byte a
   * no-op; a rebuilt gate holds the new rule's opcode and its u32 argument.
   */
  lemma {:induction false} InstalledGateReadsRule(ruleMem: seq<byte>, rid: nat, rule: seq<byte>)
    requires |ruleMem| == 5 * MaxRules && rid < MaxRules && |rule| == 5
    ensures GateOf(WriteRule(ruleMem, rid, rule), rid) == Built(OpOf(rule[0]), DecodeLE(rule[1..]))
    ensures OpOf(1) == Delta && OpOf(2) == Fix && OpOf(3) == Emit
    ensures (rule[0] == 0 || rule[0] > 3) ==> OpOf(rule[0]) == NoOp
  {
    WriteRuleFacts(ruleMem, rid, rule);
  }

  // ---------------------------------------------------------------------
  // dispatch, as values

  /** The state that gates change: the memory and the emitted assembly. */
  datatype Machine = Machine(memory: seq<byte>, emitted: string, complete: bool)

  /** The emitted text is the kernel once emission is complete, and empty before. */
  predicate Consistent(m: Machine, kernel: string) {
    |m.memory| == MemorySize && m.emitted == (if m.complete then kernel else "")
  }

  /** The state after `_emit_assembly`: the kernel text is stored on the first call only. */
  function EmitMachine(m: Machine, kernel: string): Machine {
    if m.complete then m else m.(emitted := kernel, complete := true)
  }

  /** What running a primitive returns and the state it leaves. */
  datatype Effect = Effect(result: Result<()>, machine: Machine)

  /** `fn(arg)` for primitive `op`; the value `_fix` returns is dropped by the gate. */
  function OpEffect(op: GateOp, arg: nat, m: Machine, kernel: string): (r: Machine)
    requires |m.memory| == MemorySize
    ensures |r.memory| == MemorySize
  {
    match op
    case Delta => m.(memory := DeltaMemory(m.memory, arg))
    case Fix => m
    case Emit => EmitMachine(m, kernel)
    case NoOp => m
  }

  /**
   * `gate_dispatch(rid)`: nothing unless `rid < rule_count`; then
   * `gate_table[rid](rid)`, with Python's negative indexing, which runs the
   * gate's primitive on its stored argument.
   */
  function DispatchEffect(gates: seq<Gate>, count: nat, rid: int, m: Machine, kernel: string): (r: Effect)
    requires |gates| == MaxRules && |m.memory| == MemorySize
    ensures |r.machine.memory| == MemorySize
  {
    if rid >= count then Effect(Ok(()), m)
    else match PyIndex(rid, MaxRules)
      case None => Effect(Err(IndexError), m)
      case Some(i) => if gates[i].Bare? then Effect(Ok(()), m) else Effect(Ok(()), OpEffect(gates[i].op, gates[i].arg, m, kernel))
  }

  /** The state after dispatching rids `0 .. n-1` in order. */
  function SweepUpTo(gates: seq<Gate>, count: nat, m: Machine, n: nat, kernel: string): (r: Machine)
    requires |gates| == MaxRules && |m.memory| == MemorySize
    ensures |r.memory| == MemorySize
  {
    if n == 0 then m else DispatchEffect(gates, count, n - 1, SweepUpTo(gates, count, m, n - 1, kernel), kernel).machine
  }

  /** The state after `k` iterations of `run_continuous`, each a sweep over rids `0 .. count-1`. */
  function Run(gates: seq<Gate>, count: nat, m: Machine, k: nat, kernel: string): (r: Machine)
    requires |gates| == MaxRules && |m.memory| == MemorySize
    ensures |r.memory| == MemorySize
  {
    if k == 0 then m else SweepUpTo(gates, count, Run(gates, count, m, k - 1, kernel), count, kernel)
  }

  /** Emission happens once: a second emit changes nothing, and the result is complete and consistent. */
  lemma {:induction false} EmitOnce(m: Machine, kernel: string)
    requires Consistent(m, kernel)
    ensures EmitMachine(EmitMachine(m, kernel), kernel) == EmitMachine(m, kernel)
    ensures EmitMachine(m, kernel).complete && EmitMachine(m, kernel).emitted == kernel
    ensures EmitMachine(m, kernel).memory == m.memory
    ensures m.complete ==> EmitMachine(m, kernel) == m
  {
  }

  /** A rid at or beyond `rule_count` dispatches nothing; one in range never raises. */
  lemma {:induction false} DispatchBeyondCount(gates: seq<Gate>, count: nat, rid: int, m: Machine, kernel: string)
    requires |gates| == MaxRules && |m.memory| == MemorySize && count <= MaxRules
    ensures rid >= count ==> DispatchEffect(gates, count, rid, m, kernel) == Effect(Ok(()), m)
    ensures 0 <= rid < count ==> DispatchEffect(gates, count, rid, m, kernel).result == Ok(())
    ensures rid + MaxRules < 0 ==> DispatchEffect(gates, count, rid, m, kernel) == Effect(Err(IndexError), m)
  {
  }

  /** A built gate acts on its stored argument: which rid dispatches it makes no difference. */
  lemma {:induction false} DispatchIgnoresRid(gates: seq<Gate>, count: nat, r1: nat, r2: nat, op: GateOp, arg: nat, m: Machine, kernel: string)
    requires |gates| == MaxRules && |m.memory| == MemorySize
    requires r1 < count && r2 < count && r1 < MaxRules && r2 < MaxRules
    requires gates[r1] == Built(op, arg) && gates[r2] == Built(op, arg)
    ensures DispatchEffect(gates, count, r1, m, kernel) == DispatchEffect(gates, count, r2, m, kernel)
    ensures DispatchEffect(gates, count, r1, m, kernel).machine == OpEffect(op, arg, m, kernel)
  {
  }

  /** Every dispatch keeps the emitted text consistent with the completion flag. */
  lemma {:induction false} SweepKeepsConsistent(gates: seq<Gate>, count: nat, m: Machine, n: nat, kernel: string)
    requires |gates| == MaxRules && Consistent(m, kernel)
    ensures Consistent(SweepUpTo(gates, count, m, n, kernel), kernel)
  {
    if n > 0 {
      SweepKeepsConsistent(gates, count, m, n - 1, kernel);
    }
  }

  lemma {:induction false} RunKeepsConsistent(gates: seq<Gate>, count: nat, m: Machine, k: nat, kernel: string)
    requires |gates| == MaxRules && Consistent(m, kernel)
    ensures Consistent(Run(gates, count, m, k, kernel), kernel)
  {
    if k > 0 {
      RunKeepsConsistent(gates, count, m, k - 1, kernel);
      SweepKeepsConsistent(gates, count, Run(gates, count, m, k - 1, kernel), count, kernel);
    }
  }

  /** Iterations compose: `a` iterations then `b` more are `a + b` iterations. */
  lemma {:induction false} RunAdditive(gates: seq<Gate>, count: nat, m: Machine, a: nat, b: nat, kernel: string)
    requires |gates| == MaxRules && |m.memory| == MemorySize
    ensures Run(gates, count, Run(gates, count, m, a, kernel), b, kernel) == Run(gates, count, m, a + b, kernel)
    decreases b
  {
    if b > 0 {
      RunAdditive(gates, count, m, a, b - 1, kernel);
    }
  }

  /** What `run_continuous` returns. */
  datatype RunReport = RunReport(rules: nat, assemblyComplete: bool, assemblySize: nat)

  // ---------------------------------------------------------------------
  // the system that `create_native_system` builds

  /** The three rules `create_native_system` installs: delta, fix and emit, each with argument 0x3000. */
  const NativeRules: seq<seq<byte>> := [[0x01, 0x00, 0x30, 0x00, 0x00], [0x02, 0x00, 0x30, 0x00, 0x00], [0x03, 0x00, 0x30, 0x00, 0x00]]

  /** `[_no_op] * 1024`. */
  const InitialGates: seq<Gate> := seq(MaxRules, _ => Bare)

  /** The gate table after the three native rules are installed. */
  const NativeGates: seq<Gate> := InitialGates[0 := Built(Delta, 0x3000)][1 := Built(Fix, 0x3000)][2 := Built(Emit, 0x3000)]

  /** The gates built from the three native rules. */
  lemma {:induction false} NativeRulesGates(ruleMem: seq<byte>)
    requires |ruleMem| == 5 * MaxRules
    ensures forall i :: 0 <= i < 3 ==> |NativeRules[i]| == 5
    ensures GateOf(WriteRule(ruleMem, 0, NativeRules[0]), 0) == NativeGates[0]
    ensures GateOf(WriteRule(ruleMem, 1, NativeRules[1]), 1) == NativeGates[1]
    ensures GateOf(WriteRule(ruleMem, 2, NativeRules[2]), 2) == NativeGates[2]
  {
    var arg: seq<byte> := [0x00, 0x30, 0x00, 0x00];
    assert DecodeLE(arg) == 0x3000 by {
      assert arg[1..] == [0x30, 0x00, 0x00] && arg[1..][1..] == [0x00, 0x00] && arg[1..][1..][1..] == [0x00];
    }
    forall i | 0 <= i < 3
      ensures GateOf(WriteRule(ruleMem, i, NativeRules[i]), i) == NativeGates[i]
    {
      InstalledGateReadsRule(ruleMem, i, NativeRules[i]);
      assert NativeRules[i][1..] == arg;
    }
  }

  /**
   * One iteration of the created system on fresh memory: the delta gate
   * sets `memory[0x3000]` to 0xFF, the fix gate changes nothing, and the
   * emit gate stores the kernel; nothing else changes.
   */
  lemma {:induction false} NativeRunOnce(kernel: string)
    ensures var m := Run(NativeGates, 3, Machine(Zeros(MemorySize), "", false), 1, kernel);
      m == Machine(Zeros(MemorySize)[0x3000 := 0xFF], kernel, true)
  {
    var z := Zeros(MemorySize);
    var m0 := Machine(z, "", false);
    assert NativeGates[0] == Built(Delta, 0x3000) && NativeGates[1] == Built(Fix, 0x3000) && NativeGates[2] == Built(Emit, 0x3000);
    var m1 := m0.(memory := DeltaMemory(z, 0x3000));
    assert SweepUpTo(NativeGates, 3, m0, 1, kernel) == m1;
    assert SweepUpTo(NativeGates, 3, m0, 2, kernel) == m1;
    assert SweepUpTo(NativeGates, 3, m0, 3, kernel) == EmitMachine(m1, kernel);
  }

  // ---------------------------------------------------------------------
  // the classes

  class NativeEmittingSystem {
    const memory: array<byte>
    const ruleMem: array<byte>
    var ruleCount: nat
    var gateTable: seq<Gate>
    var emittedAssembly: string
    var assemblyComplete: bool
    /** The text `NativeAssemblyGenerator().generate_kernel()` returns. */
    const kernel: string

    predicate Valid()
      reads this
    {
      && memory.Length == MemorySize && ruleMem.Length == 5 * MaxRules && memory != ruleMem
      && |gateTable| == MaxRules && ruleCount <= MaxRules
      && emittedAssembly == (if assemblyComplete then kernel else "")
    }

    /** The part of the state that gates change. */
    function State(): Machine
      reads this, memory
    {
      Machine(memory[..], emittedAssembly, assemblyComplete)
    }

    constructor (kernel: string)
      ensures Valid() && fresh(memory) && fresh(ruleMem)
      ensures memory[..] == Zeros(MemorySize) && ruleMem[..] == Zeros(5 * MaxRules)
      ensures ruleCount == 0 && gateTable == InitialGates
      ensures emittedAssembly == "" && !assemblyComplete && this.kernel == kernel
    {
      memory := new byte[MemorySize](_ => 0);
      ruleMem := new byte[5 * MaxRules](_ => 0);
      ruleCount := 0;
      gateTable := InitialGates;
      emittedAssembly := "";
      assemblyComplete := false;
      this.kernel := kernel;
    }

    method Delta(p: int)
      requires Valid()
      modifies memory
      ensures memory[..] == DeltaMemory(old(memory[..]), p)
    {
      var q := p % memory.Length;
      var v := memory[q];
      memory[q] := Flip(v);
    }

    method Fix(p: int) returns (r: nat)
      requires Valid()
      ensures r == FixValue(memory[..], p)
    {
      var q := p % memory.Length;
      r := SumBytes(PySlice(memory[..], q, q + 16)) % 256;
    }

    /** `_emit_assembly(p)`; the address is ignored. */
    method EmitAssembly(p: int)
      requires Valid()
      modifies this`emittedAssembly, this`assemblyComplete
      ensures Valid()
      ensures Machine(memory[..], emittedAssembly, assemblyComplete) == EmitMachine(old(State()), kernel)
    {
      if !assemblyComplete {
        emittedAssembly := kernel;
        assemblyComplete := true;
      }
    }

    method BuildGateFromRule(rid: int)
      requires Valid() && 0 <= rid < MaxRules
      modifies this`gateTable
      ensures Valid() && gateTable == old(gateTable)[rid := GateOf(ruleMem[..], rid)]
    {
      var op := ruleMem[rid * 5];
      var arg := DecodeLE(ruleMem[rid * 5 + 1..rid * 5 + 5]);
      assert op == RuleOpcode(ruleMem[..], rid) && arg == RuleArg(ruleMem[..], rid);
      gateTable := gateTable[rid := Built(OpOf(op), arg)];
    }

    /**
     * `install_rule(rid, rule)`: the rule bytes are written, gate `rid` is
     * rebuilt, and the rule count grows to cover `rid`.
     */
    method InstallRule(rid: int, rule: seq<byte>)
      requires Valid() && 0 <= rid < MaxRules && |rule| == 5
      modifies ruleMem, this`gateTable, this`ruleCount
      ensures Valid()
      ensures ruleMem[..] == WriteRule(old(ruleMem[..]), rid, rule)
      ensures gateTable == old(gateTable)[rid := GateOf(ruleMem[..], rid)]
      ensures ruleCount == (if rid >= old(ruleCount) then rid + 1 else old(ruleCount))
    {
      ghost var before := ruleMem[..];
      forall k | 0 <= k < 5 {
        ruleMem[rid * 5 + k] := rule[k];
      }
      assert ruleMem[..] == WriteRule(before, rid, rule);
      BuildGateFromRule(rid);
      if rid >= ruleCount {
        ruleCount := rid + 1;
      }
    }
  }

  class NativeSystem {
    const ops: NativeEmittingSystem

    predicate Valid()
      reads this, ops
    {
      ops.Valid()
    }

    constructor (kernel: string)
      ensures Valid() && fresh(ops) && fresh(ops.memory) && fresh(ops.ruleMem)
      ensures ops.memory[..] == Zeros(MemorySize) && ops.ruleMem[..] == Zeros(5 * MaxRules)
      ensures ops.ruleCount == 0 && ops.gateTable == InitialGates
      ensures ops.emittedAssembly == "" && !ops.assemblyComplete && ops.kernel == kernel
    {
      ops := new NativeEmittingSystem(kernel);
    }

    method GateDispatch(rid: int) returns (r: Result<()>)
      requires Valid()
      modifies ops.memory, ops`emittedAssembly, ops`assemblyComplete
      ensures Valid()
      ensures Effect(r, ops.State()) == DispatchEffect(ops.gateTable, ops.ruleCount, rid, old(ops.State()), ops.kernel)
    {
      if rid >= ops.ruleCount {
        return Ok(());
      }
      match PyIndex(rid, MaxRules) {
        case None =>
          return Err(IndexError);
        case Some(i) =>
          var g := ops.gateTable[i];
          if g.Bare? {
            return Ok(());
          }
          match g.op {
            case Delta =>
              ops.Delta(g.arg);
            case Fix =>
              var _ := ops.Fix(g.arg);
            case Emit =>
              ops.EmitAssembly(g.arg);
            case NoOp =>
          }
          return Ok(());
      }
    }

    /**
     * `run_continuous(iterations)`: that many sweeps over the installed
     * rules (none for a count below one), then the rule count, whether the
     * assembly is complete and its length.
     */
    method RunContinuous(iterations: int) returns (report: RunReport)
      requires Valid()
      modifies ops.memory, ops`emittedAssembly, ops`assemblyComplete
      ensures Valid()
      ensures ops.State() == Run(ops.gateTable, ops.ruleCount, old(ops.State()), if iterations > 0 then iterations else 0, ops.kernel)
      ensures report == RunReport(ops.ruleCount, ops.assemblyComplete, if ops.assemblyComplete then |ops.kernel| else 0)
    {
      ghost var m0 := ops.State();
      var it := 0;
      while it < iterations
        invariant Valid()
        invariant 0 <= it && (iterations > 0 ==> it <= iterations) && (iterations <= 0 ==> it == 0)
        invariant ops.State() == Run(ops.gateTable, ops.ruleCount, m0, it, ops.kernel)
        decreases iterations - it
      {
        ghost var start := ops.State();
        var rid := 0;
        while rid < ops.ruleCount
          invariant Valid()
          invariant 0 <= rid <= ops.ruleCount
          invariant ops.State() == SweepUpTo(ops.gateTable, ops.ruleCount, start, rid, ops.kernel)
        {
          var _ := GateDispatch(rid);
          rid := rid + 1;
        }
        it := it + 1;
      }
      return RunReport(ops.ruleCount, ops.assemblyComplete, |ops.emittedAssembly|);
    }

    /** `emit_seed(n)`. */
    method EmitSeed(n: int) returns (r: Result<seq<byte>>)
      requires Valid()
      ensures r == Seed(ops.ruleMem[..], n)
    {
      if n < 0 || n >= Pow256(8) {
        return Err(StructError);
      }
      var k := if n * 5 < ops.ruleMem.Length then n * 5 else ops.ruleMem.Length;
      return Ok(SeedMagic + EncodeLE(n, 8) + ops.ruleMem[..k]);
    }

    /** `get_assembly_code()`: the kernel once an emit gate has run, the empty string before. */
    method GetAssemblyCode() returns (s: string)
      requires Valid()
      ensures s == (if ops.assemblyComplete then ops.kernel else "")
    {
      s := ops.emittedAssembly;
    }
  }

  /**
   * `create_native_system()`: a fresh system with the three native rules
   * installed at rids 0, 1 and 2.
   */
  method CreateNativeSystem(kernel: string) returns (sys: NativeSystem)
    ensures sys.Valid() && fresh(sys) && fresh(sys.ops) && fresh(sys.ops.memory) && fresh(sys.ops.ruleMem)
    ensures sys.ops.ruleCount == 3 && sys.ops.gateTable == NativeGates && sys.ops.kernel == kernel
    ensures sys.ops.State() == Machine(Zeros(MemorySize), "", false)
  {
    sys := new NativeSystem(kernel);
    var i := 0;
    while i < |NativeRules|
      invariant 0 <= i <= 3 && sys.Valid() && sys.ops.ruleCount == i && sys.ops.kernel == kernel
      invariant fresh(sys.ops.memory) && fresh(sys.ops.ruleMem)
      invariant sys.ops.State() == Machine(Zeros(MemorySize), "", false)
      invariant forall j :: 0 <= j < MaxRules ==> sys.ops.gateTable[j] == if j < i then NativeGates[j] else Bare
    {
      NativeRulesGates(sys.ops.ruleMem[..]);
      sys.ops.InstallRule(i, NativeRules[i]);
      i := i + 1;
    }
    assert sys.ops.gateTable == NativeGates;
  }
}
